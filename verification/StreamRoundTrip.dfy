/**
 Streams from end to end: what the client is shown, what is recorded, and what comes of the message when the
 client sends it back; with a recovery notice pending or without.
 */
module StreamRoundTrip {
  import opened Options
  import opened ThinkingBlocks
  import opened Transcript
  import opened Keys
  import opened ReasoningCache
  import opened Prepare
  import opened Response
  import opened RepairFacts
  import opened Conversations
  import opened Stream
  import opened Deltas
  import opened Resplitting
  import opened Staging
  import opened Display
  import opened Notice
  import opened SseStream
  import opened Sse

  // ---------------------------------------------------------------- what is shown

  lemma UntouchedParts(lines: seq<Line>, style: Style, index: int)
    requires AllHonest(lines)
    ensures Delivered(lines, SseState({}, None), Some(style), true, true, index) == PartsOf(lines, index)
    ensures LeftAtEnd(lines, SseState({}, None), Some(style), true).None?
  {
    hide Delivered, PartsOf, LeftAtEnd, AllHonest, CarriedAt, PartsBehind, ShortcutSkipsNoText, Contents;
    NobodyTakes(lines, SseState({}, None), Some(style), true);
    var k := TakenParts(lines, SseState({}, None), Some(style), true, index);
  }

  lemma NobodyTakes(lines: seq<Line>, state: SseState, display: Option<Style>, shortcut: bool)
    ensures state.notice.None? ==> Taker(lines, state, display, shortcut).None?
  {
  }

  /** Without a notice the stream as it is really rewritten, shortcut included, shows the folded message. */
  lemma StreamShowsTheFoldedMessage(lines: seq<Line>, style: Style, index: int)
    requires ReachesDone(lines) && AllHonest(lines) && ReasoningComesFirst(PartsOf(lines, index))
    ensures var parts := PartsOf(lines, index);
      Shown(lines, SseState({}, None), Some(style), true, index) == Folded(style, Reasonings(parts), Contents(parts))
  {
    hide Shown, PartsOf, Delivered, LeftAtEnd, Folded, ReasoningComesFirst, ReachesDone, AllHonest;
    ShownIsTextOfParts(lines, SseState({}, None), Some(style), true, style, index);
    UntouchedParts(lines, style, index);
    StreamedTextEqualsFolded(PartsOf(lines, index), style);
  }

  lemma FoldedTwice(style: Style, before: string, notice: string, first: string, behind: string, rest: string)
    requires behind != "" ==> first == ""
    ensures Folded(style, before, notice + first) + Folded(style, behind, rest)
         == Folded(style, before, notice + Folded(style, behind, first + rest))
  {
    hide HtmlEscape, BlockStart, BlockEnd;
    var block := BlockStart(style) + HtmlEscape(before) + BlockEnd(style);
    if behind == "" {
      assert (notice + first) + rest == notice + (first + rest);
      assert (block + (notice + first)) + rest == block + ((notice + first) + rest);
    } else {
      var folded := Folded(style, behind, rest);
      assert notice + "" == notice && "" + rest == rest;
      assert (block + notice) + folded == block + (notice + folded);
    }
  }

  /** The part with the notice closes the block before it; what comes behind starts afresh. */
  lemma ShowsAroundNotice(a: seq<ChunkChoice>, p: ChunkChoice, b: seq<ChunkChoice>, notice: string, style: Style)
    requires p.delta.Delta? && notice != "" && Contents(a) == ""
    requires ReasoningComesFirst(a + [p] + b)
    ensures ShowsFrom(false, a + [Carrying(p, notice)] + b, style)
         == Folded(style, Reasonings(a + [p]), notice + Folded(style, Reasonings(b), Contents(a + [p] + b)))
  {
    var q := Carrying(p, notice);
    var front := a + [q];
    FrontComesFirst(a, p, b, notice);
    FrontSays(a, p, notice);
    FrontIsClosed(a, q);
    hide Folded, ReasoningComesFirst, Reasonings, Contents, OpenAfterAll, PartsText, Carrying, ContentOf;
    StreamedTextEqualsFolded(front, style);
    assert PartsText(false, front, style) + "" == PartsText(false, front, style);
    ShowsFromConcat(false, front, b, style);
    StreamedTextEqualsFolded(b, style);
    FoldedTwice(style, Reasonings(a + [p]), notice, ContentOf(p), Reasonings(b), Contents(b));
    TextsConcat(a + [p], b);
  }

  lemma FrontComesFirst(a: seq<ChunkChoice>, p: ChunkChoice, b: seq<ChunkChoice>, notice: string)
    requires p.delta.Delta? && ReasoningComesFirst(a + [p] + b)
    ensures ReasoningComesFirst(a + [Carrying(p, notice)]) && ReasoningComesFirst(b)
    ensures Reasonings(b) != "" ==> ContentOf(p) == ""
  {
    var all, front := a + [p] + b, a + [Carrying(p, notice)];
    hide Closes, ReasoningOf;
    SameReasoning(p, notice);
    forall i, j | 0 <= i < j < |front| && Closes(front[i]) ensures ReasoningOf(front[j]) == "" {
      assert all[i] == front[i] && ReasoningOf(all[j]) == ReasoningOf(front[j]);
    }
    forall i, j | 0 <= i < j < |b| && Closes(b[i]) ensures ReasoningOf(b[j]) == "" {
      assert all[|a| + 1 + i] == b[i] && all[|a| + 1 + j] == b[j];
    }
    ContentCloses(p);
    if Closes(p) {
      forall j | 0 <= j < |b| ensures ReasoningOf(b[j]) == "" { assert all[|a| + 1 + j] == b[j] && all[|a|] == p; }
      NoReasoningSays(b);
    }
  }

  lemma SameReasoning(p: ChunkChoice, notice: string)
    requires p.delta.Delta?
    ensures ReasoningOf(Carrying(p, notice)) == ReasoningOf(p)
  {
  }

  lemma {:induction false} NoReasoningSays(raws: seq<ChunkChoice>)
    requires NoReasoning(raws)
    ensures Reasonings(raws) == ""
  {
    if raws != [] { NoReasoningSays(raws[1..]); }
  }

  lemma FrontSays(a: seq<ChunkChoice>, p: ChunkChoice, notice: string)
    requires p.delta.Delta? && Contents(a) == ""
    ensures Contents(a + [p]) == ContentOf(p) && Contents(a + [Carrying(p, notice)]) == notice + ContentOf(p)
    ensures Reasonings(a + [Carrying(p, notice)]) == Reasonings(a + [p])
  {
    CarryingSays(p, notice);
    assert Contents([p]) == ContentOf(p) by { assert [p][1..] == []; }
    hide Contents, Reasonings, Carrying, CallsOf, AnyReasoning, ContentOf;
    TextsConcat(a, [p]);
    TextsConcat(a, [Carrying(p, notice)]);
  }

  lemma FrontIsClosed(a: seq<ChunkChoice>, q: ChunkChoice)
    requires ContentOf(q) != ""
    ensures !OpenAfterAll(false, a + [q])
  {
    OpenAfterConcat(false, a, [q]);
    assert [q][1..] == [];
  }

  /** A stream in which the choice takes the notice, and no text of it came before on the shortcut, shows the block
      of the reasoning before, the notice, the block of the reasoning behind, and the content. */
  lemma StreamShowsTheNotice(lines: seq<Line>, notice: string, style: Style, index: int)
    requires ReachesDone(lines) && AllHonest(lines) && ReasoningComesFirst(PartsOf(lines, index)) && notice != ""
    requires Taker(lines, SseState({}, Some(notice)), Some(style), true) == Some(index)
    requires ShortcutSkipsNoText(lines, SseState({}, Some(notice)), Some(style), index)
    ensures var state := SseState({}, Some(notice));
      var parts, behind := PartsOf(lines, index), Reasonings(PartsBehind(lines, state, Some(style), true, index));
      exists before :: before + behind == Reasonings(parts)
        && Shown(lines, state, Some(style), true, index)
          == Folded(style, before, notice + Folded(style, behind, Contents(parts)))
  {
    hide Shown, PartsOf, Delivered, LeftAtEnd, Folded, ReasoningComesFirst, ReachesDone, AllHonest, PartsBehind, Taker,
      ShowsFrom, ShortcutSkipsNoText, Contents, Reasonings, Carrying;
    var state := SseState({}, Some(notice));
    var parts := PartsOf(lines, index);
    ShownIsTextOfParts(lines, state, Some(style), true, style, index);
    var k := TakenParts(lines, state, Some(style), true, index);
    var a, p, b := parts[..k], parts[k], parts[k + 1..];
    assert a + [p] + b == parts
      && Delivered(lines, state, Some(style), true, true, index) == a + [Carrying(p, notice)] + b;
    ShowsAroundNotice(a, p, b, notice, style);
    TextsConcat(a + [p], b);
    assert Shown(lines, state, Some(style), true, index) + "" == Shown(lines, state, Some(style), true, index);
  }

  /** Without a display only the content of the parts is shown. */
  lemma PlainStreamShowsContents(lines: seq<Line>, state: SseState, index: int)
    requires ReachesDone(lines) && LeftAtEnd(lines, state, None, true).None?
    ensures Shown(lines, state, None, true, index) == Contents(Delivered(lines, state, None, true, true, index))
  {
    hide Shown, Delivered, LeftAtEnd, ReachesDone, Contents, NoReasoning;
    var after := Delivered(lines, state, None, true, true, index);
    ShownIsTextOfParts(lines, state, None, true, Tagged, index);
    NothingMirrored(lines, state, true, index);
    ShowsContent(after, Tagged);
    assert Contents(after) + "" + "" == Contents(after);
  }

  /** With a notice that the choice takes, it shows the notice and the content. */
  lemma PlainStreamShowsTheNotice(lines: seq<Line>, notice: Option<string>, index: int)
    requires ReachesDone(lines)
    requires var state := SseState({}, notice);
      notice.Some? ==> Taker(lines, state, None, true) == Some(index) && ShortcutSkipsNoText(lines, state, None, index)
    ensures Shown(lines, SseState({}, notice), None, true, index)
         == (if notice.Some? then notice.value else "") + Contents(PartsOf(lines, index))
  {
    hide Shown, PartsOf, Delivered, LeftAtEnd, ReachesDone, AllHonest, PartsBehind, Taker, ShortcutSkipsNoText,
      Contents, Carrying;
    var state := SseState({}, notice);
    var before := Delivered(lines, state, None, true, false, index);
    NobodyTakes(lines, state, None, true);
    var k := TakenParts(lines, state, None, true, index);
    PlainStreamShowsContents(lines, state, index);
    assert "" + Contents(before) == Contents(before);
    if notice.Some? {
      CarriedSays(before, Delivered(lines, state, None, true, true, index), notice.value, k);
      assert Contents(before) == Contents(before[k..]);
      assert "" + notice.value + Contents(before) == notice.value + Contents(before);
    }
  }

  // ---------------------------------------------------------------- what is recorded

  /** The chunks that reach the accumulator: not those that take the shortcut. */
  ghost function FedChunks(lines: seq<Line>, state: SseState, display: Option<Style>): seq<Chunk>
    decreases |lines|
  {
    if lines == [] || lines[0].Done? then []
    else
      (if lines[0].Event? && !TakesFastPath(lines[0], state, display) then [Fed(lines[0].chunk, state.notice)] else [])
      + FedChunks(lines[1..], StateAfter(lines[0], state, display, true), display)
  }

  /** The parts of a choice that reach the accumulator. */
  ghost function RecordedParts(lines: seq<Line>, state: SseState, display: Option<Style>,
                               index: int): seq<ChunkChoice> {
    StreamPartsFor(FedChunks(lines, state, display), index)
  }

  /** What has accumulated for a choice when the stream ends. */
  ghost function Recorded(lines: seq<Line>, state: SseState, display: Option<Style>, index: int): StreamingChoice {
    ChoiceAt(AccumulatedOver(lines, state, display, map[]), index)
  }

  lemma {:induction false} AccumulatesFedChunks(lines: seq<Line>, state: SseState, display: Option<Style>,
                                                choices: map<int, StreamingChoice>)
    ensures AccumulatedOver(lines, state, display, choices) == IngestedStream(choices, FedChunks(lines, state, display))
    decreases |lines|
  {
    hide Fed, TakesFastPath, StateAfter, Ingested;
    if lines != [] && !lines[0].Done? {
      var next := StateAfter(lines[0], state, display, true);
      var rest := FedChunks(lines[1..], next, display);
      AccumulatesFedChunks(lines[1..], next, display, Accumulated(lines[0], state, display, choices));
      if lines[0].Event? { assert ([Fed(lines[0].chunk, state.notice)] + rest)[1..] == rest; }
      assert [] + rest == rest;
    }
  }

  lemma RecordedIsAbsorbed(lines: seq<Line>, state: SseState, display: Option<Style>, index: int)
    ensures Recorded(lines, state, display, index)
         == AbsorbedAll(EMPTY_CHOICE, RecordedParts(lines, state, display, index))
  {
    hide AccumulatedOver, IngestedStream, AbsorbedAll, FedChunks, StreamPartsFor;
    AccumulatesFedChunks(lines, state, display, map[]);
    ChoicesDoNotMix(map[], FedChunks(lines, state, display), index);
  }

  lemma RecordedPartsCons(lines: seq<Line>, state: SseState, display: Option<Style>, index: int)
    requires lines != [] && !lines[0].Done?
    ensures var later := RecordedParts(lines[1..], StateAfter(lines[0], state, display, true), display, index);
      RecordedParts(lines, state, display, index)
      == if lines[0].Event? && !TakesFastPath(lines[0], state, display)
         then PartsFor(Fed(lines[0].chunk, state.notice), index) + later
         else later
  {
    hide Fed, TakesFastPath, StateAfter, PartsFor;
    var rest := FedChunks(lines[1..], StateAfter(lines[0], state, display, true), display);
    if lines[0].Event? && !TakesFastPath(lines[0], state, display) {
      assert ([Fed(lines[0].chunk, state.notice)] + rest)[1..] == rest;
    } else {
      assert [] + rest == rest;
    }
  }

  /** The notice, if a part of the choice takes it. */
  ghost function NoticeTaken(lines: seq<Line>, state: SseState, display: Option<Style>, index: int): string {
    if state.notice.Some? && Taker(lines, state, display, true) == Some(index) then state.notice.value else ""
  }

  ghost predicate RoleUnsetOrAssistant(raw: ChunkChoice) {
    raw.delta.Delta? ==> raw.delta.role == Unset || raw.delta.role == Assistant
  }

  /** Nobody but the assistant speaks. */
  ghost predicate AssistantSpeaks(raws: seq<ChunkChoice>) {
    forall raw <- raws :: RoleUnsetOrAssistant(raw)
  }

  /** What is recorded of the parts of a choice: all but the text that takes the shortcut, and the notice in front. */
  ghost predicate RecordedSays(parts: seq<ChunkChoice>, recorded: seq<ChunkChoice>, notice: string, whole: bool) {
    && SameBesidesContent(parts, recorded)
    && (AssistantSpeaks(parts) ==> AssistantSpeaks(recorded))
    && |Contents(recorded)| <= |notice| + |Contents(parts)|
    && (|Contents(recorded)| == |notice| + |Contents(parts)| <==> whole)
    && (whole ==> Contents(recorded) == notice + Contents(parts))
  }

  lemma RecordedSaysConcat(own: seq<ChunkChoice>, ownRecorded: seq<ChunkChoice>, first: string, ownWhole: bool,
                           later: seq<ChunkChoice>, laterRecorded: seq<ChunkChoice>, second: string, laterWhole: bool)
    requires RecordedSays(own, ownRecorded, first, ownWhole) && RecordedSays(later, laterRecorded, second, laterWhole)
    requires second != "" ==> first == "" && (ownWhole ==> Contents(own) == "")
    ensures RecordedSays(own + later, ownRecorded + laterRecorded, first + second, ownWhole && laterWhole)
  {
    hide SameBesidesContent, AssistantSpeaks, Contents;
    SameBesidesContentConcat(own, ownRecorded, later, laterRecorded);
    SpeaksConcat(own, later);
    SpeaksConcat(ownRecorded, laterRecorded);
    TextsConcat(own, later);
    TextsConcat(ownRecorded, laterRecorded);
    if ownWhole && laterWhole { InFront(first, Contents(own), second, Contents(later)); }
  }

  lemma SpeaksConcat(a: seq<ChunkChoice>, b: seq<ChunkChoice>)
    ensures AssistantSpeaks(a + b) <==> AssistantSpeaks(a) && AssistantSpeaks(b)
  {
    hide RoleUnsetOrAssistant;
    assert forall raw <- a :: raw in a + b;
    assert forall raw <- b :: raw in a + b;
  }

  lemma InFront(first: string, own: string, second: string, later: string)
    requires second != "" ==> own == ""
    ensures (first + own) + (second + later) == (first + second) + (own + later)
  {
    if second == "" {
      assert (first + own) + ("" + later) == (first + "") + (own + later);
    }
  }

  lemma SaysItself(raws: seq<ChunkChoice>)
    ensures RecordedSays(raws, raws, "", true)
  {
    assert "" + Contents(raws) == Contents(raws);
  }

  /** The shortcut skips content and nothing else. */
  lemma {:induction false} SkippedSays(raws: seq<ChunkChoice>)
    requires forall raw <- raws :: raw.delta.Delta? ==> raw.delta.reasoning.None? && raw.delta.calls == []
    ensures SameBesidesContent(raws, [])
  {
    if raws != [] {
      var front, last := raws[..|raws| - 1], raws[|raws| - 1];
      assert raws == front + [last];
      SkippedSays(front);
      TextsLast(front, last);
    }
  }

  lemma ShortcutSays(line: Line, index: int)
    requires line.Event? && !line.mentions && Honest(line)
    ensures RecordedSays(PartsFor(line.chunk, index), [], "", TextFor(line.chunk, index) == "")
  {
    PartsAreOfChunk(line.chunk, index);
    SkippedSays(PartsFor(line.chunk, index));
  }

  lemma CarriedSpeaks(raws: seq<ChunkChoice>, carried: seq<ChunkChoice>, notice: string, k: int)
    requires CarriedAt(raws, carried, notice, k)
    ensures AssistantSpeaks(raws) ==> AssistantSpeaks(carried)
  {
    if AssistantSpeaks(raws) {
      forall raw | raw in carried ensures RoleUnsetOrAssistant(raw) {
        var i :| 0 <= i < |carried| && carried[i] == raw;
        assert raws[i] in raws && RoleUnsetOrAssistant(raws[i]);
      }
    }
  }

  /** On the slow path all is recorded, with the notice in front if the choice takes it here. */
  lemma SlowLineSays(line: Line, state: SseState, display: Option<Style>, index: int)
    requires line.Event? && !TakesFastPath(line, state, display)
    ensures RecordedSays(PartsFor(line.chunk, index), PartsFor(Fed(line.chunk, state.notice), index),
                         if TakesFor(line, state, display, true, index) then state.notice.value else "", true)
    ensures state.notice.Some? && !Takes(line, state, display, true) ==> TextFor(line.chunk, index) == ""
  {
    var parts, fed := PartsFor(line.chunk, index), PartsFor(Fed(line.chunk, state.notice), index);
    SaysItself(parts);
    hide RecordedSays, Carrier, Behind, Injected, PartsFor, CarriedAt, Contents;
    if Takes(line, state, display, true) {
      var k := InjectedParts(line.chunk, state.notice.value, index);
      if index == Carrier(line.chunk) { CarriedIsRecorded(parts, fed, state.notice.value, k); }
    } else if state.notice.Some? {
      CannotCarry(line.chunk, state.notice.value, index);
    }
  }

  lemma CarriedIsRecorded(raws: seq<ChunkChoice>, carried: seq<ChunkChoice>, notice: string, k: int)
    requires CarriedAt(raws, carried, notice, k) && 0 <= k < |raws| && Contents(raws[..k]) == ""
    ensures RecordedSays(raws, carried, notice, true)
  {
    hide Contents, SameBesidesContent, CarriedAt, AssistantSpeaks;
    CarriedSays(raws, carried, notice, k);
    CarriedSpeaks(raws, carried, notice, k);
    assert "" + Contents(raws[k..]) == Contents(raws[k..]) && "" + notice == notice;
  }

  lemma SkipsCons(lines: seq<Line>, state: SseState, display: Option<Style>, index: int)
    requires lines != [] && !lines[0].Done?
    ensures ShortcutSkipsNoText(lines, state, display, index)
      <==> (lines[0].Event? && TakesFastPath(lines[0], state, display) ==> TextFor(lines[0].chunk, index) == "")
           && ShortcutSkipsNoText(lines[1..], StateAfter(lines[0], state, display, true), display, index)
  {
  }

  /** What the accumulator misses: never reasoning or calls, and text exactly when the shortcut skips some. */
  lemma {:induction false} WhatIsRecorded(lines: seq<Line>, state: SseState, display: Option<Style>, index: int)
    requires AllHonest(lines)
    ensures RecordedSays(PartsOf(lines, index), RecordedParts(lines, state, display, index),
                         NoticeTaken(lines, state, display, index),
                         ShortcutSkipsNoText(lines, state, display, index))
    decreases |lines|
  {
    hide RecordedSays, RecordedParts, PartsOf, Honest, AllHonest, ShortcutSkipsNoText, StateAfter, NoticeTaken,
      TakesFor, Takes, TakesFastPath, Fed, PartsFor, Contents;
    if lines == [] || lines[0].Done? {
      NothingRecorded(lines, state, display, index);
    } else {
      var line, rest, next := lines[0], lines[1..], StateAfter(lines[0], state, display, true);
      HonestCons(lines);
      PartsOfCons(lines, index);
      RecordedPartsCons(lines, state, display, index);
      SkipsCons(lines, state, display, index);
      NoticeTakenCons(lines, state, display, index);
      WhatIsRecorded(rest, next, display, index);
      if line.Event? {
        LineIsRecorded(line, state, display, index, PartsOf(rest, index), RecordedParts(rest, next, display, index),
                       NoticeTaken(rest, next, display, index), ShortcutSkipsNoText(rest, next, display, index));
      } else {
        EventsOnly(line, state, display, index);
        var later := NoticeTaken(rest, next, display, index);
        assert "" + later == later;
      }
    }
  }

  lemma NoticeTakenCons(lines: seq<Line>, state: SseState, display: Option<Style>, index: int)
    requires lines != [] && !lines[0].Done?
    ensures var line := lines[0];
      var later := NoticeTaken(lines[1..], StateAfter(line, state, display, true), display, index);
      && NoticeTaken(lines, state, display, index)
         == (if TakesFor(line, state, display, true, index) then state.notice.value else "") + later
      && (later != "" ==> state.notice.Some? && !Takes(line, state, display, true))
  {
    TakerCons(lines, state, display, true, index);
    hide Taker, Carrier, StateAfter, TakesFastPath;
  }

  lemma LineIsRecorded(line: Line, state: SseState, display: Option<Style>, index: int, later: seq<ChunkChoice>,
                       laterRecorded: seq<ChunkChoice>, second: string, laterWhole: bool)
    requires line.Event? && Honest(line) && RecordedSays(later, laterRecorded, second, laterWhole)
    requires second != "" ==> state.notice.Some? && !Takes(line, state, display, true)
    ensures RecordedSays(PartsFor(line.chunk, index) + later,
                         if TakesFastPath(line, state, display) then laterRecorded
                         else PartsFor(Fed(line.chunk, state.notice), index) + laterRecorded,
                         (if TakesFor(line, state, display, true, index) then state.notice.value else "") + second,
                         (TakesFastPath(line, state, display) ==> TextFor(line.chunk, index) == "") && laterWhole)
  {
    hide RecordedSays, Honest, Carrier, Fed, PartsFor, SomeCanCarry, Contents;
    var parts := PartsFor(line.chunk, index);
    if TakesFastPath(line, state, display) {
      ShortcutSays(line, index);
      RecordedSaysConcat(parts, [], "", TextFor(line.chunk, index) == "", later, laterRecorded, second, laterWhole);
      assert [] + laterRecorded == laterRecorded;
    } else {
      SlowLineSays(line, state, display, index);
      RecordedSaysConcat(parts, PartsFor(Fed(line.chunk, state.notice), index),
                         if TakesFor(line, state, display, true, index) then state.notice.value else "", true,
                         later, laterRecorded, second, laterWhole);
    }
  }

  lemma EventsOnly(line: Line, state: SseState, display: Option<Style>, index: int)
    requires !line.Event?
    ensures !TakesFor(line, state, display, true, index)
  {
  }

  lemma NothingRecorded(lines: seq<Line>, state: SseState, display: Option<Style>, index: int)
    requires lines == [] || lines[0].Done?
    ensures RecordedSays(PartsOf(lines, index), RecordedParts(lines, state, display, index),
                         NoticeTaken(lines, state, display, index),
                         ShortcutSkipsNoText(lines, state, display, index))
  {
  }

  /** The message of the choice as upstream sent it, in one piece: the last role, all content, all calls merged, and
      all reasoning if any came. */
  ghost function UpstreamMessage(lines: seq<Line>, index: int): Message {
    var parts := PartsOf(lines, index);
    Message(LastRole(parts), Some(Text(Contents(parts))), None, None, MergedAll([], CallsOf(parts)),
            if AnyReasoning(parts) then Thought(Reasonings(parts)) else Absent, None)
  }

  /** The whole-response recorder puts a notice in front of the content. */
  function WithNotice(message: Message, notice: Option<string>): Message {
    if notice.Some? then WithPrefix(message, notice.value) else message
  }

  /** The choice takes the notice if there is one, and the shortcut skips no text of it. */
  ghost predicate Arrives(lines: seq<Line>, state: SseState, display: Option<Style>, index: int) {
    && (state.notice.Some? ==> state.notice.value != "" && Taker(lines, state, display, true) == Some(index))
    && ShortcutSkipsNoText(lines, state, display, index)
  }

  predicate BelowTheLimit(choice: StreamingChoice) {
    |choice.content| < MAX_CONTENT_LENGTH && |choice.reasoning| < MAX_CONTENT_LENGTH
  }

  lemma RecordedIsAllOfIt(lines: seq<Line>, state: SseState, display: Option<Style>, index: int)
    requires BelowTheLimit(Recorded(lines, state, display, index))
    ensures var choice, recorded := Recorded(lines, state, display, index), RecordedParts(lines, state, display, index);
      choice.content == Contents(recorded) && choice.reasoning == Reasonings(recorded) && choice == Whole(recorded)
  {
    hide Recorded, RecordedParts, AbsorbedAll, Contents, Reasonings;
    RecordedIsAbsorbed(lines, state, display, index);
    TextIsAPrefix(RecordedParts(lines, state, display, index));
    AccumulatesTheWhole(RecordedParts(lines, state, display, index));
  }

  /** What upstream sends stays below the limit if it is short enough. */
  lemma ShortStreamsStayBelow(lines: seq<Line>, notice: Option<string>, display: Option<Style>, index: int)
    requires AllHonest(lines)
    requires |Contents(PartsOf(lines, index))| + (if notice.Some? then |notice.value| else 0) < MAX_CONTENT_LENGTH
    requires |Reasonings(PartsOf(lines, index))| < MAX_CONTENT_LENGTH
    ensures BelowTheLimit(Recorded(lines, SseState({}, notice), display, index))
  {
    var state := SseState({}, notice);
    hide Recorded, RecordedParts, PartsOf, Contents, Reasonings, ShortcutSkipsNoText, AllHonest, Taker, AssistantSpeaks,
      AbsorbedAll;
    WhatIsRecorded(lines, state, display, index);
    RecordedIsAbsorbed(lines, state, display, index);
    TextIsAPrefix(RecordedParts(lines, state, display, index));
  }

  /** Below the limit, the recorded content of a choice is the whole content of the stream, behind the notice if one
      is pending, if and only if the choice takes the notice and no line on the shortcut carries text for it; the
      reasoning is recorded whole in any case. */
  lemma RecordedTextIsWhole(lines: seq<Line>, notice: Option<string>, display: Option<Style>, index: int)
    requires AllHonest(lines) && (notice.Some? ==> notice.value != "")
    requires BelowTheLimit(Recorded(lines, SseState({}, notice), display, index))
    ensures var choice := Recorded(lines, SseState({}, notice), display, index);
      && (choice.content == (if notice.Some? then notice.value else "") + Contents(PartsOf(lines, index))
          <==> Arrives(lines, SseState({}, notice), display, index))
      && choice.reasoning == Reasonings(PartsOf(lines, index))
  {
    var state := SseState({}, notice);
    hide Recorded, RecordedParts, PartsOf, Contents, Reasonings, ShortcutSkipsNoText, AllHonest, Taker, AssistantSpeaks,
      CallsOf, AnyReasoning, Whole;
    WhatIsRecorded(lines, state, display, index);
    RecordedIsAllOfIt(lines, state, display, index);
  }

  lemma {:induction false} SpeakerIsAssistant(raws: seq<ChunkChoice>)
    requires AssistantSpeaks(raws)
    ensures LastRole(raws) == Assistant
  {
    if raws != [] {
      var front, last := raws[..|raws| - 1], raws[|raws| - 1];
      assert last in raws && forall raw <- front :: raw in raws;
      SpeakerIsAssistant(front);
    }
  }

  /** Below the limit, and with nobody but the assistant speaking, the same condition decides whether the recorded
      message is the one that the recorder of whole responses would have recorded. */
  lemma RecordedMessageIsWhole(lines: seq<Line>, notice: Option<string>, display: Option<Style>, index: int)
    requires AllHonest(lines) && (notice.Some? ==> notice.value != "") && AssistantSpeaks(PartsOf(lines, index))
    requires BelowTheLimit(Recorded(lines, SseState({}, notice), display, index))
    ensures ToMessage(Recorded(lines, SseState({}, notice), display, index))
         == WithNotice(UpstreamMessage(lines, index), notice)
      <==> Arrives(lines, SseState({}, notice), display, index)
  {
    var state := SseState({}, notice);
    hide Recorded, RecordedParts, PartsOf, Contents, Reasonings, ShortcutSkipsNoText, AllHonest, Taker, AssistantSpeaks,
      CallsOf, AnyReasoning, Arrives, LastRole, LastFinish, MergedAll;
    WhatIsRecorded(lines, state, display, index);
    RecordedIsAllOfIt(lines, state, display, index);
    RecordedTextIsWhole(lines, notice, display, index);
    SpeakerIsAssistant(PartsOf(lines, index));
    SpeakerIsAssistant(RecordedParts(lines, state, display, index));
    assert "" + Contents(PartsOf(lines, index)) == Contents(PartsOf(lines, index));
  }

  /** The condition matters: a lone content chunk that mentions neither field is shown but not recorded. */
  lemma ShortcutCanLoseText()
    ensures var lines := [Event([ChunkChoice(0, None, Delta(Assistant, Str("a"), None, []))], false), Done];
      && AllHonest(lines) && ReachesDone(lines)
      && Shown(lines, SseState({}, None), None, true, 0) == "a"
      && Recorded(lines, SseState({}, None), None, 0).content == ""
  {
    OneShortLine(None);
    assert "a" + "" == "a";
  }

  /** With a notice pending, the same chunk is shown in front of the notice, and neither is recorded: what the client
      sends back does not begin with the notice. */
  lemma ShortcutCanLoseTheNotice()
    ensures var lines := [Event([ChunkChoice(0, None, Delta(Assistant, Str("a"), None, []))], false), Done];
      var state := SseState({}, Some(RecoveryNoticeContent()));
      && AllHonest(lines) && ReachesDone(lines)
      && Shown(lines, state, None, true, 0) == "a" + RecoveryNoticeContent()
      && Recorded(lines, state, None, 0).content == ""
      && !(RecoveryNoticeText() <= Shown(lines, state, None, true, 0))
  {
    OneShortLine(Some(RecoveryNoticeContent()));
    NoticeHasNoBracket(0);
    assert RecoveryNoticeText()[0] == '[' && ("a" + RecoveryNoticeContent())[0] == 'a';
  }

  lemma OneShortLine(notice: Option<string>)
    ensures var lines := [Event([ChunkChoice(0, None, Delta(Assistant, Str("a"), None, []))], false), Done];
      && AllHonest(lines) && ReachesDone(lines)
      && Shown(lines, SseState({}, notice), None, true, 0) == "a" + (if notice.Some? then notice.value else "")
      && Recorded(lines, SseState({}, notice), None, 0).content == ""
  {
    var raw := ChunkChoice(0, None, Delta(Assistant, Str("a"), None, []));
    var lines := [Event([raw], false), Done];
    var state := SseState({}, notice);
    assert lines[1..] == [Done] && lines[1].Done?;
    assert [raw][1..] == [] && PartsFor([raw], 0) == [raw];
    assert Contents([raw]) == "a" + "";
    assert TextFor([raw], 0) == "a";
    assert Shown([Done], state, None, true, 0) == "" + NoticeText(notice, 0);
  }

  // ---------------------------------------------------------------- the echo

  /** What the client makes of the stream and sends back. */
  ghost function SentBack(lines: seq<Line>, state: SseState, display: Option<Style>, index: int): Message {
    UpstreamMessage(lines, index).(content := Some(Text(Shown(lines, state, display, true, index))),
                                   reasoning := Absent)
  }

  function PendingNotice(notice: bool): Option<string> {
    if notice then Some(RecoveryNoticeContent()) else None
  }

  /** Reasoning comes behind the notice, so that a block stands between the notice and a content that begins with
      whitespace. */
  ghost predicate LosesSpace(lines: seq<Line>, notice: bool, display: Option<Style>, index: int) {
    var content := Contents(PartsOf(lines, index));
    notice && display.Some? && SkipSpace(content) != content
    && Reasonings(PartsBehind(lines, SseState({}, PendingNotice(notice)), display, true, index)) != ""
  }

  /** A streamed reply that reaches the recorder and the client in order. */
  ghost predicate StreamsWell(lines: seq<Line>, notice: bool, display: Option<Style>, index: int) {
    var state := SseState({}, PendingNotice(notice));
    && ReachesDone(lines) && AllHonest(lines) && AssistantSpeaks(PartsOf(lines, index))
    && (display.Some? ==> ReasoningComesFirst(PartsOf(lines, index)))
    && Arrives(lines, state, display, index) && BelowTheLimit(Recorded(lines, state, display, index))
  }

  lemma {:induction false} ReasoningIsFlagged(raws: seq<ChunkChoice>)
    ensures Reasonings(raws) != "" ==> AnyReasoning(raws)
  {
    if raws != [] {
      var front, last := raws[..|raws| - 1], raws[|raws| - 1];
      assert raws == front + [last];
      ReasoningIsFlagged(front);
      TextsLast(front, last);
    }
  }

  /** What is shown of the recorded message as a whole. */
  lemma WholeIsShownFolded(lines: seq<Line>, notice: Option<string>, style: Style, index: int)
    ensures var message, parts := WithNotice(UpstreamMessage(lines, index), notice), PartsOf(lines, index);
      var text := if notice.Some? then notice.value + Contents(parts) else Contents(parts);
      && TextOr(message.content) == text
      && Echo(message, Some(style))
        == message.(content := Some(Text(Folded(style, Reasonings(parts), text))), reasoning := Absent)
      && Echo(message, None) == message.(content := Some(Text(text)), reasoning := Absent)
  {
    hide PartsOf, Contents, Reasonings, AnyReasoning, Fold, CallsOf, LastRole, LastFinish, MergedAll;
    ReasoningIsFlagged(PartsOf(lines, index));
  }

  lemma ContentHasNoBlock(notice: string, content: string)
    requires '<' !in notice && HasNoBlock(notice + content)
    ensures HasNoBlock(content)
  {
    RemoveNone(notice, content);
    assert (notice + content)[|notice|..] == content
      && (notice + RemoveBlocks(content))[|notice|..] == RemoveBlocks(content);
  }

  /** The texts that the client sends back and that the recorded message would be shown as: equal without a notice,
      and otherwise the same once the blocks are stripped, unless whitespace is lost. */
  lemma TextsComeBack(lines: seq<Line>, notice: bool, display: Option<Style>, index: int)
    requires StreamsWell(lines, notice, display, index)
    requires HasNoBlock(TextOr(WithNotice(UpstreamMessage(lines, index), PendingNotice(notice)).content))
    ensures var shown := Shown(lines, SseState({}, PendingNotice(notice)), display, true, index);
      var whole := Echo(WithNotice(UpstreamMessage(lines, index), PendingNotice(notice)), display).content;
      && (!notice || display.None? ==> whole == Some(Text(shown)))
      && (StripThinkingBlocks(shown) == StripThinkingBlocks(TextOr(whole))
          <==> !LosesSpace(lines, notice, display, index))
  {
    hide Shown, PartsOf, Contents, Reasonings, Folded, ReasoningComesFirst, ReachesDone, AllHonest, AssistantSpeaks,
      BelowTheLimit, ShortcutSkipsNoText, PartsBehind, Taker, StripThinkingBlocks, HasNoBlock, UpstreamMessage, Echo,
      WithNotice, RecoveryNoticeContent, SkipSpace;
    WholeIsShownFolded(lines, PendingNotice(notice), if display.Some? then display.value else Tagged, index);
    if display.None? {
      PlainStreamShowsTheNotice(lines, PendingNotice(notice), index);
      assert "" + Contents(PartsOf(lines, index)) == Contents(PartsOf(lines, index));
    } else if !notice {
      StreamShowsTheFoldedMessage(lines, display.value, index);
    } else {
      NoticedTextsComeBack(lines, display.value, index);
    }
  }

  lemma NoticedTextsComeBack(lines: seq<Line>, style: Style, index: int)
    requires StreamsWell(lines, true, Some(style), index)
    requires HasNoBlock(RecoveryNoticeContent() + Contents(PartsOf(lines, index)))
    ensures var parts := PartsOf(lines, index);
      StripThinkingBlocks(Shown(lines, SseState({}, PendingNotice(true)), Some(style), true, index))
      == StripThinkingBlocks(Folded(style, Reasonings(parts), RecoveryNoticeContent() + Contents(parts)))
      <==> !LosesSpace(lines, true, Some(style), index)
  {
    hide Shown, PartsOf, Contents, Reasonings, ReasoningComesFirst, ReachesDone, AllHonest, AssistantSpeaks,
      BelowTheLimit, Fold, ShortcutSkipsNoText, PartsBehind, Taker, StripThinkingBlocks, HasNoBlock,
      RecoveryNoticeContent, SkipSpace;
    var text, content := RecoveryNoticeContent(), Contents(PartsOf(lines, index));
    var behind := Reasonings(PartsBehind(lines, SseState({}, Some(text)), Some(style), true, index));
    NoticeIsPlainText();
    ContentHasNoBlock(text, content);
    StreamShowsTheNotice(lines, text, style, index);
    var before :| before + behind == Reasonings(PartsOf(lines, index))
      && Shown(lines, SseState({}, Some(text)), Some(style), true, index)
        == Folded(style, before, text + Folded(style, behind, content));
    StripAroundText(style, before, text, behind, content);
    StripAroundText(style, Reasonings(PartsOf(lines, index)), text, "", content);
    assert (text + content)[|text|..] == content && (text + SkipSpace(content))[|text|..] == SkipSpace(content);
  }

  /** A streamed reply that reaches the recorder is recorded as a whole response would be, notice included; sent back
      by the client, the next request reads it as the echo of that response, unless whitespace is lost. */
  lemma StreamedReplyEchoesBack(lines: seq<Line>, notice: bool, display: Option<Style>, index: int)
    requires StreamsWell(lines, notice, display, index)
    requires EchoesClean(WithNotice(UpstreamMessage(lines, index), PendingNotice(notice)), display)
    ensures var state := SseState({}, PendingNotice(notice));
      var recorded := ToMessage(Recorded(lines, state, display, index));
      var sentBack := SentBack(lines, state, display, index);
      && recorded == WithNotice(UpstreamMessage(lines, index), PendingNotice(notice))
      && (!notice || display.None? ==> sentBack == Echo(recorded, display))
      && (Normalized(sentBack, true) == Normalized(Echo(recorded, display), true)
          <==> !LosesSpace(lines, notice, display, index))
  {
    hide Shown, PartsOf, ReasoningComesFirst, ReachesDone, AllHonest, AssistantSpeaks, BelowTheLimit, LosesSpace,
      Recorded, StripThinkingBlocks, HasNoBlock, RecoveryNoticeContent, SkipSpace, SkipNewlines, Fold, Whole, Arrives;
    NoticeIsPlainText();
    RecordedMessageIsWhole(lines, PendingNotice(notice), display, index);
    TextsComeBack(lines, notice, display, index);
  }

  /** From the stream to the next request: once the reply is in the cache under a history, as the end of the stream
      leaves it, what the client sends back after that history finds its reasoning again. */
  lemma StreamedReplyIsFoundAgain(lines: seq<Line>, notice: bool, display: Option<Style>, index: int, cache: Cache,
                                  namespace: Namespace, history: seq<Message>)
    requires StreamsWell(lines, notice, display, index) && !LosesSpace(lines, notice, display, index)
    requires EchoesClean(WithNotice(UpstreamMessage(lines, index), PendingNotice(notice)), display)
    requires var choice := Recorded(lines, SseState({}, PendingNotice(notice)), display, index);
      choice.hasReasoning
      && Kept(cache, EntryFor(index, choice, Context(ConversationScope(history, namespace), history), namespace))
    ensures Findable(cache, Normalized(SentBack(lines, SseState({}, PendingNotice(notice)), display, index), true),
                     namespace, history)
  {
    hide StreamsWell, LosesSpace, Normalized, MessageSignature, Findable, ConversationScope, Recorded, Kept, WithNotice,
      UpstreamMessage;
    var state := SseState({}, PendingNotice(notice));
    var recorded := ToMessage(Recorded(lines, state, display, index));
    StreamedReplyEchoesBack(lines, notice, display, index);
    KeptHasSignature(cache, EntryFor(index, Recorded(lines, state, display, index),
                                     Context(ConversationScope(history, namespace), history), namespace));
    EchoRestoresSignature(recorded, display);
    SignatureIsFindable(cache, Normalized(SentBack(lines, state, display, index), true), namespace, history);
  }

  lemma KeptHasSignature(cache: Cache, p: Pending)
    requires Kept(cache, p) && p.message.role == Assistant && p.message.reasoning.Thought?
    ensures Scoped(p.key.1, MessageSignature(p.message)) in cache
  {
    var keys := ScopedKeys(p.message, p.key.1);
    assert Selectors(p.message)[0] == MessageSignature(p.message);
    assert keys[0] == Scoped(p.key.1, MessageSignature(p.message)) && keys[0] in keys;
  }

  function OneChoice(content: Field, reasoning: Option<string>): Line {
    Event([ChunkChoice(0, None, Delta(Assistant, content, reasoning, []))], true)
  }

  /** The condition matters: a null content takes the notice, reasoning follows, and then a content with a leading
      space. Everything arrives, yet the next request reads the reply without its space. */
  lemma NoticeCanCostSpace()
    ensures var lines := [OneChoice(Nothing, Some("r")), OneChoice(Missing, Some("q")), OneChoice(Str(" b"), None),
                          Done];
      StreamsWell(lines, true, Some(Tagged), 0) && LosesSpace(lines, true, Some(Tagged), 0)
  {
    var lines := [OneChoice(Nothing, Some("r")), OneChoice(Missing, Some("q")), OneChoice(Str(" b"), None), Done];
    var state := SseState({}, PendingNotice(true));
    SpacedStream(lines);
    SpacedNotice(lines, RecoveryNoticeContent());
    NoticeIsPlainText();
    assert |RecoveryNoticeContent()| == 56;
    hide Recorded, PartsOf, PartsBehind, Contents, Reasonings, Taker, ShortcutSkipsNoText, AllHonest, ReachesDone,
      ReasoningComesFirst, RecoveryNoticeContent, AssistantSpeaks, SkipSpace;
    ShortStreamsStayBelow(lines, Some(RecoveryNoticeContent()), Some(Tagged), 0);
  }

  lemma SpacedStream(lines: seq<Line>)
    requires lines == [OneChoice(Nothing, Some("r")), OneChoice(Missing, Some("q")), OneChoice(Str(" b"), None), Done]
    ensures ReachesDone(lines) && AllHonest(lines)
    ensures var parts := PartsOf(lines, 0);
      && AssistantSpeaks(parts) && ReasoningComesFirst(parts) && Contents(parts) == " b" && Reasonings(parts) == "rq"
    ensures SkipSpace(" b") != " b"
  {
    assert lines[3].Done?;
    PartsOfThree(lines);
    var parts := PartsOf(lines, 0);
    ContentsCons(parts[0], parts[1..]);
    ContentsCons(parts[1], parts[2..]);
    ContentsCons(parts[2], []);
    assert parts[1..] == [parts[1]] + parts[2..] && parts[2..] == [parts[2]] + [];
    assert Reasonings(parts[2..]) == "" && Reasonings(parts[1..]) == "q" + "";
  }

  lemma PartsOfThree(lines: seq<Line>)
    requires |lines| == 4 && lines[3].Done? && forall k :: 0 <= k < 3 ==>
      lines[k].Event? && |lines[k].chunk| == 1 && lines[k].chunk[0].index == 0
    ensures PartsOf(lines, 0) == [lines[0].chunk[0], lines[1].chunk[0], lines[2].chunk[0]]
    ensures PartsOf(lines[1..], 0) == [lines[1].chunk[0], lines[2].chunk[0]]
  {
    hide PartsOf;
    var second, third := lines[1..], lines[2..];
    assert second[1..] == third && third[1..] == lines[3..];
    assert PartsOf(lines[3..], 0) == [] by { NothingDelivered(lines[3..], SseState({}, None), None, true, 0); }
    PartsOfCons(lines, 0);
    PartsOfCons(second, 0);
    PartsOfCons(third, 0);
    OnePartOf(lines[0].chunk);
    OnePartOf(lines[1].chunk);
    OnePartOf(lines[2].chunk);
  }

  lemma OnePartOf(chunk: Chunk)
    requires |chunk| == 1 && chunk[0].index == 0
    ensures PartsFor(chunk, 0) == [chunk[0]]
  {
    assert chunk == [chunk[0]] && chunk[1..] == [];
  }

  lemma SpacedNotice(lines: seq<Line>, notice: string)
    requires lines == [OneChoice(Nothing, Some("r")), OneChoice(Missing, Some("q")), OneChoice(Str(" b"), None), Done]
    ensures var state := SseState({}, Some(notice));
      && Taker(lines, state, Some(Tagged), true) == Some(0) && ShortcutSkipsNoText(lines, state, Some(Tagged), 0)
      && Reasonings(PartsBehind(lines, state, Some(Tagged), true, 0)) == "q"
  {
    var state := SseState({}, Some(notice));
    var next := StateAfter(lines[0], state, Some(Tagged), true);
    var first := lines[0].chunk;
    assert CanCarry(first[0]) && first[1..] == [];
    PartsOfThree(lines);
    var b := PartsOf(lines[1..], 0);
    hide PartsOf, ShortcutSkipsNoText;
    assert Behind(first) == [] && TakesFor(lines[0], state, Some(Tagged), true, 0);
    assert PartsBehind(lines, state, Some(Tagged), true, 0) == [] + b == b;
    assert b[1..] == [b[1]] && b[1..][1..] == [] && Reasonings(b[1..]) == "" && Reasonings(b) == "q" + "";
    hide StateAfter;
    MentioningSkipsNothing(lines[1..], next, Some(Tagged), 0);
  }

  /** Lines that mention a field never take the shortcut. */
  lemma {:induction false} MentioningSkipsNothing(lines: seq<Line>, state: SseState, display: Option<Style>, index: int)
    requires forall line <- lines :: line.Event? ==> line.mentions
    ensures ShortcutSkipsNoText(lines, state, display, index)
    decreases |lines|
  {
    if lines != [] && !lines[0].Done? {
      hide StateAfter;
      assert lines[0] in lines && forall line <- lines[1..] :: line in lines;
      MentioningSkipsNothing(lines[1..], StateAfter(lines[0], state, display, true), display, index);
    }
  }
}
