/** A server-sent event stream: its lines, what the client is shown of them, and where the notice goes. */
module SseStream {
  import opened Collections
  import opened Options
  import opened ThinkingBlocks
  import opened Stream
  import opened Display
  import opened Notice

  /** A line of the stream. `mentions` says that its data contains the quoted name of the reasoning or the tool call
      field; `Undecodable` is data that is not a JSON object. */
  datatype Line =
    | NotData
    | Done
    | Undecodable(mentions: bool)
    | Event(chunk: Chunk, mentions: bool)

  /** Fields are found by name: a chunk that mentions neither field has neither. */
  ghost predicate Honest(line: Line) {
    line.Event? && !line.mentions ==>
      forall raw <- line.chunk :: raw.delta.Delta? ==> raw.delta.reasoning.None? && raw.delta.calls == []
  }

  ghost predicate AllHonest(lines: seq<Line>) {
    forall line <- lines :: Honest(line)
  }

  ghost predicate ReachesDone(lines: seq<Line>) {
    exists k :: 0 <= k < |lines| && lines[k].Done?
  }

  lemma DoneComesLater(lines: seq<Line>)
    requires ReachesDone(lines)
    ensures lines != [] && (!lines[0].Done? ==> ReachesDone(lines[1..]))
  {
    var k :| 0 <= k < |lines| && lines[k].Done?;
    assert k > 0 ==> lines[1..][k - 1].Done?;
  }

  /** The parts of a choice, as upstream sent them before `[DONE]`. */
  ghost function PartsOf(lines: seq<Line>, index: int): seq<ChunkChoice> {
    if lines == [] || lines[0].Done? then []
    else (if lines[0].Event? then PartsFor(lines[0].chunk, index) else []) + PartsOf(lines[1..], index)
  }

  // ---------------------------------------------------------------- specification

  datatype SseState = SseState(open: set<int>, notice: Option<string>)

  /** The byte-level shortcut: taken when no block is open and the data mentions neither field. */
  predicate TakesFastPath(line: Line, state: SseState, display: Option<Style>) {
    (line.Event? || line.Undecodable?) && !line.mentions && (display.None? || state.open == {})
  }

  /** What the accumulator and the display are given on the slow path. */
  ghost function Fed(chunk: Chunk, notice: Option<string>): Chunk {
    if notice.Some? then Injected(chunk, notice.value) else chunk
  }

  /** `shortcut` says whether the fast path may be taken at all. */
  ghost function StateAfter(line: Line, state: SseState, display: Option<Style>, shortcut: bool): SseState {
    if !line.Event? || (shortcut && TakesFastPath(line, state, display)) then state
    else
      var fed := Fed(line.chunk, state.notice);
      SseState(if display.Some? then OpenSetAfterAll(state.open, fed) else state.open,
               if state.notice.Some? && SomeCanCarry(line.chunk) then None else state.notice)
  }

  /** The chunk sent on for an event. */
  ghost function SentFor(line: Line, state: SseState, display: Option<Style>, shortcut: bool): Chunk
    requires line.Event?
  {
    if shortcut && TakesFastPath(line, state, display) then line.chunk
    else
      var fed := Fed(line.chunk, state.notice);
      if display.Some? then RewrittenAll(state.open, fed, display.value) else fed
  }

  function NoticeText(notice: Option<string>, index: int): string {
    if notice.Some? && index == 0 then notice.value else ""
  }

  /** All that is shown for a choice, up to and including `[DONE]`. */
  ghost function Shown(lines: seq<Line>, state: SseState, display: Option<Style>, shortcut: bool, index: int): string
    decreases |lines|
  {
    if lines == [] then ""
    else match lines[0]
      case Done =>
        (if display.Some? && index in state.open then BlockEnd(display.value) else "") + NoticeText(state.notice, index)
      case Event(_, _) =>
        TextFor(SentFor(lines[0], state, display, shortcut), index)
        + Shown(lines[1..], StateAfter(lines[0], state, display, shortcut), display, shortcut, index)
      case _ => Shown(lines[1..], state, display, shortcut, index)
  }

  // ---------------------------------------------------------------- the shortcut is invisible

  lemma {:induction false} NothingToMirror(chunk: Chunk, style: Style, index: int)
    requires forall raw <- chunk :: ReasoningOf(raw) == ""
    ensures TextFor(RewrittenAll({}, chunk, style), index) == TextFor(chunk, index)
    ensures OpenSetAfterAll({}, chunk) == {}
    decreases |chunk|
  {
    if chunk != [] {
      var raw, rest := chunk[0], chunk[1..];
      assert raw in chunk && forall r <- rest :: r in chunk;
      NothingToMirror(rest, style, index);
      assert OpenSetAfter({}, raw) == {};
      var next := Rewritten(false, raw, style);
      assert RewrittenAll({}, chunk, style) == [next] + RewrittenAll({}, rest, style);
      assert chunk == [raw] + rest;
      assert ContentOf(next) == ContentOf(raw) && next.index == raw.index;
      hide Rewritten;
      TextForCons(raw, rest, index);
      TextForCons(next, RewrittenAll({}, rest, style), index);
    }
  }

  /** With no notice pending, the mix of fast and slow lines shows what the slow path alone shows. */
  lemma {:induction false} FastPathShowsTheSame(lines: seq<Line>, state: SseState, display: Option<Style>, index: int)
    requires state.notice.None? && AllHonest(lines)
    ensures Shown(lines, state, display, true, index) == Shown(lines, state, display, false, index)
    decreases |lines|
  {
    if lines != [] {
      var line, rest := lines[0], lines[1..];
      assert line in lines && forall l <- rest :: l in lines;
      if line.Event? {
        if TakesFastPath(line, state, display) && display.Some? {
          NothingToMirror(line.chunk, display.value, index);
        }
        FastPathShowsTheSame(rest, StateAfter(line, state, display, true), display, index);
      } else if !line.Done? {
        FastPathShowsTheSame(rest, state, display, index);
      }
    }
  }

  // ---------------------------------------------------------------- what is shown, in pieces

  /** A part nothing is mirrored of: only its content shows. */
  function Bare(raw: ChunkChoice): ChunkChoice {
    if raw.delta.Delta? then raw.(delta := raw.delta.(reasoning := None)) else raw
  }

  function BareAll(raws: seq<ChunkChoice>): (bare: seq<ChunkChoice>)
    ensures |bare| == |raws|
  {
    seq(|raws|, i requires 0 <= i < |raws| => Bare(raws[i]))
  }

  /** What the display makes blocks of: nothing at all without a display, or on the fast path. */
  ghost function Mirrored(line: Line, state: SseState, display: Option<Style>, shortcut: bool,
                          raws: seq<ChunkChoice>): seq<ChunkChoice> {
    if display.None? || (shortcut && TakesFastPath(line, state, display)) then BareAll(raws) else raws
  }

  /** The chunk a line delivers, with the notice if it takes it. */
  ghost function ChunkFor(line: Line, state: SseState, display: Option<Style>, shortcut: bool): Chunk
    requires line.Event?
  {
    if shortcut && TakesFastPath(line, state, display) then line.chunk else Fed(line.chunk, state.notice)
  }

  ghost function PartsHere(line: Line, state: SseState, display: Option<Style>, shortcut: bool, noticed: bool,
                           index: int): seq<ChunkChoice>
    requires line.Event?
  {
    Mirrored(line, state, display, shortcut,
             PartsFor(if noticed then ChunkFor(line, state, display, shortcut) else line.chunk, index))
  }

  /** The parts of a choice as they are shown: with the notice if `noticed`, and as upstream sent them otherwise. */
  ghost function Delivered(lines: seq<Line>, state: SseState, display: Option<Style>, shortcut: bool, noticed: bool,
                           index: int): seq<ChunkChoice>
    decreases |lines|
  {
    if lines == [] || lines[0].Done? then []
    else
      var line := lines[0];
      (if line.Event? then PartsHere(line, state, display, shortcut, noticed, index) else [])
      + Delivered(lines[1..], StateAfter(line, state, display, shortcut), display, shortcut, noticed, index)
  }

  /** The notice if no line takes it before `[DONE]`. */
  ghost function LeftAtEnd(lines: seq<Line>, state: SseState, display: Option<Style>, shortcut: bool): Option<string>
    decreases |lines|
  {
    if lines == [] || lines[0].Done? then state.notice
    else LeftAtEnd(lines[1..], StateAfter(lines[0], state, display, shortcut), display, shortcut)
  }

  /** The choice whose part takes the notice before `[DONE]`, if any does. */
  ghost function Taker(lines: seq<Line>, state: SseState, display: Option<Style>, shortcut: bool): Option<int>
    decreases |lines|
  {
    if lines == [] || lines[0].Done? || state.notice.None? then None
    else if lines[0].Event? && !(shortcut && TakesFastPath(lines[0], state, display)) && SomeCanCarry(lines[0].chunk)
    then Some(Carrier(lines[0].chunk))
    else Taker(lines[1..], StateAfter(lines[0], state, display, shortcut), display, shortcut)
  }

  ghost predicate IsOpen(state: SseState, display: Option<Style>, index: int) {
    display.Some? && index in state.open
  }

  /** Everything shown for a choice: the pieces of its parts, the closing marker, and a notice nothing has taken. */
  ghost function StreamPieces(lines: seq<Line>, state: SseState, display: Option<Style>, shortcut: bool,
                              index: int): seq<Piece> {
    var raws := Delivered(lines, state, display, shortcut, true, index);
    var left := LeftAtEnd(lines, state, display, shortcut);
    PiecesOfAll(IsOpen(state, display, index), raws) + When(OpenAfterAll(IsOpen(state, display, index), raws), End)
    + When(left.Some? && index == 0, Plain(NoticeText(left, index)))
  }

  /** What a choice shows from here on: the text of its parts, and the closing marker if its block is left open. */
  ghost function ShowsFrom(open: bool, raws: seq<ChunkChoice>, style: Style): string {
    PartsText(open, raws, style) + ClosingText(OpenAfterAll(open, raws), style)
  }

  lemma {:induction false} OpenAfterConcat(open: bool, a: seq<ChunkChoice>, b: seq<ChunkChoice>)
    ensures OpenAfterAll(open, a + b) == OpenAfterAll(OpenAfterAll(open, a), b)
    decreases |a|
  {
    hide OpenAfter;
    if a == [] {
      assert a + b == b;
    } else {
      assert (a + b)[1..] == a[1..] + b;
      OpenAfterConcat(OpenAfter(open, a[0]), a[1..], b);
    }
  }

  lemma {:induction false} BareShowsContent(raws: seq<ChunkChoice>, style: Style)
    ensures Contents(BareAll(raws)) == Contents(raws)
    ensures PartsText(false, BareAll(raws), style) == Contents(raws) && !OpenAfterAll(false, BareAll(raws))
  {
    ShowsContent(BareAll(raws), style);
    BareContents(raws);
  }

  lemma {:induction false} BareContents(raws: seq<ChunkChoice>)
    ensures Contents(BareAll(raws)) == Contents(raws)
  {
    if raws != [] {
      BareContents(raws[1..]);
      assert BareAll(raws)[1..] == BareAll(raws[1..]);
    }
  }

  /** A style the shown text does not depend on unless it is the display's. */
  ghost predicate Fits(style: Style, display: Option<Style>) {
    display.Some? ==> style == display.value
  }

  /** The text sent for an event is that of its parts, and they leave the block of the choice as it is afterwards. */
  lemma SentShowsParts(line: Line, state: SseState, display: Option<Style>, shortcut: bool, style: Style, index: int)
    requires line.Event? && Fits(style, display)
    ensures var parts := PartsHere(line, state, display, shortcut, true, index);
      && TextFor(SentFor(line, state, display, shortcut), index)
        == PartsText(IsOpen(state, display, index), parts, style)
      && IsOpen(StateAfter(line, state, display, shortcut), display, index)
        == OpenAfterAll(IsOpen(state, display, index), parts)
  {
    hide PartsText, RewrittenAll, OpenSetAfterAll, OpenAfterAll, BareAll, PartsFor, Injected;
    var chunk := ChunkFor(line, state, display, shortcut);
    if display.None? || (shortcut && TakesFastPath(line, state, display)) {
      BareShowsContent(PartsFor(chunk, index), style);
    } else {
      ChunkTextIsOwn(state.open, chunk, style, index);
    }
  }

  lemma ShowsFromConcat(open: bool, parts: seq<ChunkChoice>, later: seq<ChunkChoice>, style: Style)
    ensures ShowsFrom(open, parts + later, style)
         == PartsText(open, parts, style) + ShowsFrom(OpenAfterAll(open, parts), later, style)
  {
    hide PartsText, OpenAfterAll, ClosingText;
    PartsTextConcat(open, parts, later, style);
    OpenAfterConcat(open, parts, later);
    var middle := OpenAfterAll(open, parts);
    Associates(PartsText(open, parts, style), PartsText(middle, later, style),
               ClosingText(OpenAfterAll(middle, later), style));
  }

  /** A stream that reaches `[DONE]` shows for a choice the text of its parts, closes its block, and adds a notice
      nothing has taken. */
  lemma {:induction false} ShownIsTextOfParts(lines: seq<Line>, state: SseState, display: Option<Style>, shortcut: bool,
                                              style: Style, index: int)
    requires ReachesDone(lines) && Fits(style, display)
    ensures Shown(lines, state, display, shortcut, index)
         == ShowsFrom(IsOpen(state, display, index), Delivered(lines, state, display, shortcut, true, index), style)
            + NoticeText(LeftAtEnd(lines, state, display, shortcut), index)
    decreases |lines|
  {
    hide Shown, Delivered, LeftAtEnd, ShowsFrom, StateAfter, ReachesDone, NoticeText, IsOpen, PartsHere, SentFor;
    DoneComesLater(lines);
    var line, rest, next := lines[0], lines[1..], StateAfter(lines[0], state, display, shortcut);
    if line.Done? {
      ShownAtDone(lines, state, display, shortcut, style, index);
    } else {
      var later := Delivered(rest, next, display, shortcut, true, index);
      ShownIsTextOfParts(rest, next, display, shortcut, style, index);
      StepOf(lines, state, display, shortcut, index);
      if line.Event? {
        var parts := PartsHere(line, state, display, shortcut, true, index);
        SentShowsParts(line, state, display, shortcut, style, index);
        ShowsFromConcat(IsOpen(state, display, index), parts, later, style);
        Associates(PartsText(IsOpen(state, display, index), parts, style),
                   ShowsFrom(IsOpen(next, display, index), later, style),
                   NoticeText(LeftAtEnd(rest, next, display, shortcut), index));
      }
    }
  }

  lemma ShownAtDone(lines: seq<Line>, state: SseState, display: Option<Style>, shortcut: bool, style: Style, index: int)
    requires lines != [] && lines[0].Done? && Fits(style, display)
    ensures Shown(lines, state, display, shortcut, index)
         == ShowsFrom(IsOpen(state, display, index), Delivered(lines, state, display, shortcut, true, index), style)
            + NoticeText(LeftAtEnd(lines, state, display, shortcut), index)
  {
    hide BlockEnd;
  }

  /** One line of a stream, as the functions on streams see it. */
  lemma StepOf(lines: seq<Line>, state: SseState, display: Option<Style>, shortcut: bool, index: int)
    requires lines != [] && !lines[0].Done?
    ensures !lines[0].Event? ==> StateAfter(lines[0], state, display, shortcut) == state
    ensures LeftAtEnd(lines, state, display, shortcut)
         == LeftAtEnd(lines[1..], StateAfter(lines[0], state, display, shortcut), display, shortcut)
    ensures var later := Shown(lines[1..], StateAfter(lines[0], state, display, shortcut), display, shortcut, index);
      Shown(lines, state, display, shortcut, index)
      == if lines[0].Event? then TextFor(SentFor(lines[0], state, display, shortcut), index) + later else later
    ensures forall noticed ::
      var later := Delivered(lines[1..], StateAfter(lines[0], state, display, shortcut), display, shortcut, noticed,
                             index);
      Delivered(lines, state, display, shortcut, noticed, index)
      == if lines[0].Event? then PartsHere(lines[0], state, display, shortcut, noticed, index) + later else later
  {
    hide SentFor, PartsHere, TextFor, TakesFastPath, Fed;
    forall noticed ensures
      var later := Delivered(lines[1..], StateAfter(lines[0], state, display, shortcut), display, shortcut, noticed,
                             index);
      [] + later == later
    {
    }
  }

  /** The text outside every block. */
  ghost function PlainText(pieces: seq<Piece>): string {
    if pieces == [] then ""
    else (if pieces[0].Plain? then pieces[0].text else "") + PlainText(pieces[1..])
  }

  lemma {:induction false} PlainTextConcat(a: seq<Piece>, b: seq<Piece>)
    ensures PlainText(a + b) == PlainText(a) + PlainText(b)
  {
    if a == [] {
      assert a + b == b;
    } else {
      assert (a + b)[1..] == a[1..] + b;
      PlainTextConcat(a[1..], b);
    }
  }

  lemma PlainTextWhen(condition: bool, piece: Piece)
    ensures PlainText(When(condition, piece)) == if condition && piece.Plain? then piece.text else ""
  {
    if condition { assert [piece][1..] == []; }
  }

  /** The pieces of a part before its content, which shows outside every block. */
  ghost function Markers(open: bool, raw: ChunkChoice): seq<Piece> {
    var reasoning := ReasoningOf(raw);
    When(reasoning != "" && !open, Start) + When(reasoning != "", Escaped(reasoning))
    + When((open || reasoning != "") && Closes(raw), End)
  }

  lemma PlainTextOfPart(open: bool, raw: ChunkChoice)
    ensures PiecesOf(open, raw) == Markers(open, raw) + When(ContentOf(raw) != "", Plain(ContentOf(raw)))
    ensures PlainText(Markers(open, raw)) == "" && PlainText(PiecesOf(open, raw)) == ContentOf(raw)
  {
    var reasoning, content := ReasoningOf(raw), ContentOf(raw);
    var start, escaped := When(reasoning != "" && !open, Start), When(reasoning != "", Escaped(reasoning));
    var end, plain := When((open || reasoning != "") && Closes(raw), End), When(content != "", Plain(content));
    PlainTextWhen(reasoning != "" && !open, Start);
    PlainTextWhen(reasoning != "", Escaped(reasoning));
    PlainTextWhen((open || reasoning != "") && Closes(raw), End);
    PlainTextWhen(content != "", Plain(content));
    hide PlainText, Closes;
    PlainTextConcat(start, escaped);
    PlainTextConcat(start + escaped, end);
    PlainTextConcat(start + escaped + end, plain);
  }

  /** Outside the blocks, the content of the parts and nothing else. */
  lemma {:induction false} PlainTextOfAll(open: bool, raws: seq<ChunkChoice>)
    ensures PlainText(PiecesOfAll(open, raws)) == Contents(raws)
    decreases |raws|
  {
    if raws != [] {
      var now := OpenAfter(open, raws[0]);
      PlainTextOfPart(open, raws[0]);
      PlainTextOfAll(now, raws[1..]);
      PlainTextConcat(PiecesOf(open, raws[0]), PiecesOfAll(now, raws[1..]));
    }
  }

  lemma {:induction false} PiecesConcat(open: bool, a: seq<ChunkChoice>, b: seq<ChunkChoice>)
    ensures PiecesOfAll(open, a + b) == PiecesOfAll(open, a) + PiecesOfAll(OpenAfterAll(open, a), b)
    decreases |a|
  {
    hide PiecesOf, OpenAfter;
    if a == [] {
      assert a + b == b;
    } else {
      assert (a + b)[1..] == a[1..] + b && (a + b)[0] == a[0];
      var now := OpenAfter(open, a[0]);
      PiecesConcat(now, a[1..], b);
      Associates(PiecesOf(open, a[0]), PiecesOfAll(now, a[1..]), PiecesOfAll(OpenAfterAll(now, a[1..]), b));
    }
  }

  ghost predicate AllPlain(pieces: seq<Piece>) {
    forall piece <- pieces :: piece.Plain?
  }

  /** The pieces are what is shown, well bracketed, and closed at the end. */
  ghost predicate DisplayedAs(pieces: seq<Piece>, shown: string, display: Option<Style>, open: bool) {
    && Bracketed(pieces, open, false)
    && match display
       case None => AllPlain(pieces) && shown == PlainText(pieces)
       case Some(style) => shown == Render(pieces, style)
  }

  lemma {:induction false} PlainPiecesRender(pieces: seq<Piece>, style: Style)
    requires AllPlain(pieces)
    ensures Render(pieces, style) == PlainText(pieces)
  {
    if pieces != [] {
      assert forall piece <- pieces[1..] :: piece in pieces;
      PlainPiecesRender(pieces[1..], style);
    }
  }

  lemma {:induction false} NoReasoningAllPlain(raws: seq<ChunkChoice>)
    requires NoReasoning(raws)
    ensures AllPlain(PiecesOfAll(false, raws)) && !OpenAfterAll(false, raws)
  {
    if raws != [] { NoReasoningAllPlain(raws[1..]); }
  }

  lemma {:induction false} NothingMirrored(lines: seq<Line>, state: SseState, shortcut: bool, index: int)
    ensures NoReasoning(Delivered(lines, state, None, shortcut, true, index))
    decreases |lines|
  {
    if lines != [] && !lines[0].Done? {
      hide ChunkFor, StateAfter;
      NothingMirrored(lines[1..], StateAfter(lines[0], state, None, shortcut), shortcut, index);
    }
  }

  lemma ShownInPieces(lines: seq<Line>, state: SseState, display: Option<Style>, shortcut: bool, index: int)
    requires ReachesDone(lines)
    ensures DisplayedAs(StreamPieces(lines, state, display, shortcut, index),
                        Shown(lines, state, display, shortcut, index), display,
                        IsOpen(state, display, index))
  {
    var style := if display.Some? then display.value else Tagged;
    var open, raws := IsOpen(state, display, index), Delivered(lines, state, display, shortcut, true, index);
    var left := LeftAtEnd(lines, state, display, shortcut);
    var last, end := OpenAfterAll(open, raws), left.Some? && index == 0;
    ShownIsTextOfParts(lines, state, display, shortcut, style, index);
    if display.None? {
      NothingMirrored(lines, state, shortcut, index);
      NoReasoningAllPlain(raws);
    }
    hide Shown, Delivered, LeftAtEnd, PartsText, Bracketed, Render, PlainText, OpenAfterAll, BlockEnd, BlockStart,
      NoReasoning, PiecesOfAll, ReachesDone;
    var pieces, plain := PiecesOfAll(open, raws), Plain(NoticeText(left, index));
    AllPiecesRenderToText(open, raws, style);
    RenderWhen(last, End, style);
    RenderWhen(end, plain, style);
    RenderConcat(pieces, When(last, End), style);
    RenderConcat(pieces + When(last, End), When(end, plain), style);
    BracketedAll(open, raws);
    BracketedWhen(last, End, last);
    BracketedWhen(end, plain, false);
    BracketedConcat(pieces, When(last, End), open, last, false);
    BracketedConcat(pieces + When(last, End), When(end, plain), open, false, false);
    if display.None? { PlainPiecesRender(pieces + When(last, End) + When(end, plain), style); }
  }

  // ---------------------------------------------------------------- the notice is shown exactly once

  /** One piece outside the blocks begins with the notice; without it the plain text is the content. */
  ghost predicate CarriesNotice(pieces: seq<Piece>, content: string, notice: string) {
    exists j :: 0 <= j < |pieces| && pieces[j].Plain? && notice <= pieces[j].text
      && PlainText(pieces[..j]) + pieces[j].text[|notice|..] + PlainText(pieces[j + 1..]) == content
  }

  /** What is shown for a choice is its content, outside well-bracketed blocks: with the notice at one place, if any. */
  ghost predicate Shows(shown: string, content: string, notice: Option<string>, display: Option<Style>, open: bool) {
    exists pieces :: DisplayedAs(pieces, shown, display, open)
      && match notice
         case None => PlainText(pieces) == content
         case Some(text) => CarriesNotice(pieces, content, text)
  }

  /** The choice that shows the notice: the one that took it, or the first if none did before `[DONE]`. */
  ghost function Recipient(lines: seq<Line>, state: SseState, display: Option<Style>, shortcut: bool): int {
    match Taker(lines, state, display, shortcut) case Some(index) => index case None => 0
  }

  lemma BareCarried(raws: seq<ChunkChoice>, carried: seq<ChunkChoice>, notice: string, k: int)
    requires CarriedAt(raws, carried, notice, k)
    ensures 0 <= k < |raws| && CarriedAt(BareAll(raws), BareAll(carried), notice, k)
    ensures Contents(BareAll(raws)[..k]) == Contents(raws[..k])
  {
    BareContents(raws[..k]);
    assert BareAll(raws)[..k] == BareAll(raws[..k]);
    assert Bare(Carrying(raws[k], notice)) == Carrying(Bare(raws[k]), notice);
    hide Bare;
    assert BareAll(carried) == BareAll(raws)[k := Carrying(Bare(raws[k]), notice)];
  }

  /** A line takes the notice: it is on the slow path and has a part that can carry it. */
  ghost predicate Takes(line: Line, state: SseState, display: Option<Style>, shortcut: bool) {
    state.notice.Some? && line.Event? && !(shortcut && TakesFastPath(line, state, display)) && SomeCanCarry(line.chunk)
  }

  /** The line puts the notice into a part of the choice. */
  ghost predicate TakesFor(line: Line, state: SseState, display: Option<Style>, shortcut: bool, index: int) {
    Takes(line, state, display, shortcut) && index == Carrier(line.chunk)
  }

  /** The parts of the choice behind the one that takes the notice. */
  ghost function PartsBehind(lines: seq<Line>, state: SseState, display: Option<Style>, shortcut: bool,
                             index: int): seq<ChunkChoice>
    decreases |lines|
  {
    if lines == [] || lines[0].Done? then []
    else if TakesFor(lines[0], state, display, shortcut, index)
    then PartsFor(Behind(lines[0].chunk), index) + PartsOf(lines[1..], index)
    else PartsBehind(lines[1..], StateAfter(lines[0], state, display, shortcut), display, shortcut, index)
  }

  /** No line that takes the shortcut carries text for the choice. */
  ghost predicate ShortcutSkipsNoText(lines: seq<Line>, state: SseState, display: Option<Style>, index: int)
    decreases |lines|
  {
    lines == [] || lines[0].Done?
    || ((lines[0].Event? && TakesFastPath(lines[0], state, display) ==> TextFor(lines[0].chunk, index) == "")
        && ShortcutSkipsNoText(lines[1..], StateAfter(lines[0], state, display, true), display, index))
  }

  lemma UnnoticedHere(line: Line, state: SseState, display: Option<Style>, shortcut: bool, index: int)
    requires line.Event?
    ensures var parts := PartsHere(line, state, display, shortcut, false, index);
      && Contents(parts) == Contents(PartsFor(line.chunk, index))
      && (Honest(line) && display.Some? ==> parts == PartsFor(line.chunk, index))
  {
    var raws := PartsFor(line.chunk, index);
    BareContents(raws);
    PartsAreOfChunk(line.chunk, index);
    if Honest(line) && !line.mentions {
      forall i | 0 <= i < |raws| ensures Bare(raws[i]) == raws[i] { assert raws[i] in raws; }
      assert BareAll(raws) == raws;
    }
  }

  lemma {:induction false} PartsAreOfChunk(chunk: Chunk, index: int)
    ensures forall raw <- PartsFor(chunk, index) :: raw in chunk && raw.index == index
  {
    if chunk != [] { PartsAreOfChunk(chunk[1..], index); }
  }

  /** The line puts the notice into part `k` of the choice. */
  ghost predicate TakenIn(line: Line, state: SseState, display: Option<Style>, shortcut: bool, index: int, k: int)
    requires line.Event? && TakesFor(line, state, display, shortcut, index)
  {
    var before := PartsHere(line, state, display, shortcut, false, index);
    && CarriedAt(before, PartsHere(line, state, display, shortcut, true, index), state.notice.value, k)
    && 0 <= k < |before| && Contents(before[..k]) == ""
    && (display.Some? ==> before[k + 1..] == PartsFor(Behind(line.chunk), index))
  }

  lemma NoticedHere(line: Line, state: SseState, display: Option<Style>, shortcut: bool, index: int) returns (k: int)
    requires line.Event?
    ensures if TakesFor(line, state, display, shortcut, index)
      then TakenIn(line, state, display, shortcut, index, k)
      else PartsHere(line, state, display, shortcut, true, index)
           == PartsHere(line, state, display, shortcut, false, index)
  {
    k := 0;
    hide PartsFor, BareAll, CarriedAt, Contents, Behind, Carrier;
    if Takes(line, state, display, shortcut) {
      k := InjectedParts(line.chunk, state.notice.value, index);
      if index == Carrier(line.chunk) && display.None? {
        BareCarried(PartsFor(line.chunk, index), PartsFor(Injected(line.chunk, state.notice.value), index),
                    state.notice.value, k);
      }
    } else if state.notice.Some? && !SomeCanCarry(line.chunk) {
      CannotCarry(line.chunk, state.notice.value, index);
    }
  }

  /** The notice changes one part of the choice that takes it, and nothing of the other choices. */
  lemma {:induction false} TakenParts(lines: seq<Line>, state: SseState, display: Option<Style>, shortcut: bool,
                                      index: int)
    returns (k: int)
    ensures var before := Delivered(lines, state, display, shortcut, false, index);
      var after := Delivered(lines, state, display, shortcut, true, index);
      && Contents(before) == Contents(PartsOf(lines, index))
      && (AllHonest(lines) && display.Some? ==> before == PartsOf(lines, index))
      && (if Taker(lines, state, display, shortcut) == Some(index)
          then state.notice.Some? && CarriedAt(before, after, state.notice.value, k) && 0 <= k < |before|
               && ((shortcut ==> ShortcutSkipsNoText(lines, state, display, index)) ==> Contents(before[..k]) == "")
               && (AllHonest(lines) && display.Some? ==>
                    before[k + 1..] == PartsBehind(lines, state, display, shortcut, index))
          else after == before)
    ensures LeftAtEnd(lines, state, display, shortcut)
         == if Taker(lines, state, display, shortcut).Some? then None else state.notice
    decreases |lines|
  {
    hide PartsHere, CarriedAt, Honest, Contents, StateAfter, TakesFor, PartsOf, Delivered, LeftAtEnd, Taker, AllHonest,
      PartsBehind, ShortcutSkipsNoText, Behind;
    k := 0;
    if lines == [] || lines[0].Done? {
      NothingDelivered(lines, state, display, shortcut, index);
    } else {
      var line, rest, next := lines[0], lines[1..], StateAfter(lines[0], state, display, shortcut);
      HonestCons(lines);
      StepOf(lines, state, display, shortcut, index);
      PartsOfCons(lines, index);
      TakerCons(lines, state, display, shortcut, index);
      QuietCons(lines, state, display, shortcut, index);
      k := TakenParts(rest, next, display, shortcut, index);
      if line.Event? {
        UnnoticedHere(line, state, display, shortcut, index);
        var here := NoticedHere(line, state, display, shortcut, index);
        var own, there := PartsHere(line, state, display, shortcut, false, index), k;
        var later := Delivered(rest, next, display, shortcut, false, index);
        TextsConcat(own, later);
        TextsConcat(PartsFor(line.chunk, index), PartsOf(rest, index));
        k := CarriedInOne(own, PartsHere(line, state, display, shortcut, true, index), later,
                          Delivered(rest, next, display, shortcut, true, index),
                          if state.notice.Some? then state.notice.value else "", here, there,
                          TakesFor(line, state, display, shortcut, index),
                          Taker(rest, next, display, shortcut) == Some(index));
        if Taker(rest, next, display, shortcut) == Some(index) { TextsConcat(own, later[..there]); }
      }
    }
  }

  lemma CarriedInOne(own: seq<ChunkChoice>, ownCarried: seq<ChunkChoice>, later: seq<ChunkChoice>,
                     laterCarried: seq<ChunkChoice>, notice: string, here: int, there: int, inOwn: bool,
                     inLater: bool) returns (k: int)
    requires !(inOwn && inLater)
    requires if inOwn then CarriedAt(own, ownCarried, notice, here) else own == ownCarried
    requires if inLater then CarriedAt(later, laterCarried, notice, there) else later == laterCarried
    ensures if inOwn || inLater
      then CarriedAt(own + later, ownCarried + laterCarried, notice, k) && 0 <= k < |own + later|
      else own + later == ownCarried + laterCarried
    ensures inOwn ==>
      0 <= here < |own| && (own + later)[..k] == own[..here] && (own + later)[k + 1..] == own[here + 1..] + later
    ensures inLater ==>
      0 <= there < |later| && (own + later)[..k] == own + later[..there] && (own + later)[k + 1..] == later[there + 1..]
  {
    k := if inOwn then here else |own| + there;
    if inOwn {
      CarriedBefore(own, later, ownCarried, notice, here);
    } else if inLater {
      CarriedBehind(own, later, laterCarried, notice, there);
    }
  }

  lemma QuietCons(lines: seq<Line>, state: SseState, display: Option<Style>, shortcut: bool, index: int)
    requires lines != [] && !lines[0].Done?
    ensures var line, rest, next := lines[0], lines[1..], StateAfter(lines[0], state, display, shortcut);
      && (shortcut && ShortcutSkipsNoText(lines, state, display, index) ==>
           ShortcutSkipsNoText(rest, next, display, index))
      && ((line.Event? && Taker(rest, next, display, shortcut).Some?
           && (shortcut ==> ShortcutSkipsNoText(lines, state, display, index)))
          ==> Contents(PartsFor(line.chunk, index)) == "")
      && PartsBehind(lines, state, display, shortcut, index)
         == if TakesFor(line, state, display, shortcut, index)
            then PartsFor(Behind(line.chunk), index) + PartsOf(rest, index)
            else PartsBehind(rest, next, display, shortcut, index)
  {
    TakerCons(lines, state, display, shortcut, index);
    if lines[0].Event? && !SomeCanCarry(lines[0].chunk) { CannotCarry(lines[0].chunk, "", index); }
    hide Carrier, Behind, Injected, PartsOf, OpenSetAfterAll, Contents, PartsFor;
  }

  lemma HonestCons(lines: seq<Line>)
    requires lines != []
    ensures AllHonest(lines) <==> Honest(lines[0]) && AllHonest(lines[1..])
  {
    assert lines == [lines[0]] + lines[1..];
  }

  lemma NothingDelivered(lines: seq<Line>, state: SseState, display: Option<Style>, shortcut: bool, index: int)
    requires lines == [] || lines[0].Done?
    ensures PartsOf(lines, index) == [] && Taker(lines, state, display, shortcut).None?
    ensures LeftAtEnd(lines, state, display, shortcut) == state.notice
    ensures forall noticed :: Delivered(lines, state, display, shortcut, noticed, index) == []
  {
  }

  lemma PartsOfCons(lines: seq<Line>, index: int)
    requires lines != [] && !lines[0].Done?
    ensures PartsOf(lines, index)
         == if lines[0].Event? then PartsFor(lines[0].chunk, index) + PartsOf(lines[1..], index)
            else PartsOf(lines[1..], index)
  {
    assert [] + PartsOf(lines[1..], index) == PartsOf(lines[1..], index);
  }

  lemma TakerCons(lines: seq<Line>, state: SseState, display: Option<Style>, shortcut: bool, index: int)
    requires lines != [] && !lines[0].Done?
    ensures var line, rest, next := lines[0], lines[1..], StateAfter(lines[0], state, display, shortcut);
      && (Taker(lines, state, display, shortcut) == Some(index)
          <==> TakesFor(line, state, display, shortcut, index) || Taker(rest, next, display, shortcut) == Some(index))
      && (Taker(lines, state, display, shortcut).Some?
          <==> Takes(line, state, display, shortcut) || Taker(rest, next, display, shortcut).Some?)
      && (TakesFor(line, state, display, shortcut, index) ==> line.Event? && Taker(rest, next, display, shortcut).None?)
      && (next.notice == if Takes(line, state, display, shortcut) then None else state.notice)
      && (Taker(rest, next, display, shortcut).Some? ==> next.notice.Some?)
  {
    hide Carrier, OpenSetAfterAll, SomeCanCarry, TakesFastPath;
  }

  /** A part with the notice shows it at the front of its content, outside every block. */
  lemma CarryingPieces(open: bool, raw: ChunkChoice, notice: string)
    requires raw.delta.Delta? && notice != ""
    ensures PiecesOf(open, Carrying(raw, notice))
         == Markers(open, Carrying(raw, notice)) + [Plain(notice + ContentOf(raw))]
    ensures PlainText(Markers(open, Carrying(raw, notice))) == ""
  {
    PlainTextOfPart(open, Carrying(raw, notice));
  }

  lemma CarriedPieces(open: bool, raws: seq<ChunkChoice>, carried: seq<ChunkChoice>, notice: string, k: int)
    requires CarriedAt(raws, carried, notice, k) && notice != ""
    ensures CarriesNotice(PiecesOfAll(open, carried), Contents(raws), notice)
  {
    var a, p, b := raws[..k], raws[k], raws[k + 1..];
    hide PiecesOf, Markers, OpenAfter, PlainText, Contents, ContentOf, CarriesNotice, PiecesOfAll, Carrying;
    var q, middle := Carrying(p, notice), OpenAfterAll(open, a);
    assert carried == a + ([q] + b) && raws == a + ([p] + b);
    PiecesConcat(open, a, [q] + b);
    TextsConcat(a, [p] + b);
    PlainTextOfAll(open, a);
    NoticeBehind(PiecesOfAll(open, a), middle, p, notice, b);
  }

  lemma PiecesCons(open: bool, raw: ChunkChoice, rest: seq<ChunkChoice>)
    ensures PiecesOfAll(open, [raw] + rest) == PiecesOf(open, raw) + PiecesOfAll(OpenAfter(open, raw), rest)
  {
    assert ([raw] + rest)[1..] == rest;
  }

  lemma NoticeBehind(earlier: seq<Piece>, open: bool, raw: ChunkChoice, notice: string, rest: seq<ChunkChoice>)
    requires raw.delta.Delta? && notice != ""
    ensures CarriesNotice(earlier + PiecesOfAll(open, [Carrying(raw, notice)] + rest),
                          PlainText(earlier) + Contents([raw] + rest), notice)
  {
    hide PiecesOfAll, PiecesOf, Markers, OpenAfter, PlainText, Contents, ContentOf, CarriesNotice, Carrying;
    var q := Carrying(raw, notice);
    var now := OpenAfter(open, q);
    PiecesCons(open, q, rest);
    var markers, after := Markers(open, q), PiecesOfAll(now, rest);
    CarryingPieces(open, raw, notice);
    ContentsCons(raw, rest);
    PlainTextOfAll(now, rest);
    PlainTextConcat(earlier, markers);
    assert PlainText(earlier) + "" == PlainText(earlier);
    NoticeAmong(earlier + markers, notice, ContentOf(raw), after, PlainText(earlier) + Contents([raw] + rest));
    var plain := [Plain(notice + ContentOf(raw))];
    assert earlier + ((markers + plain) + after) == (earlier + markers) + plain + after;
  }

  lemma NoticeAmong(before: seq<Piece>, notice: string, text: string, after: seq<Piece>, content: string)
    requires PlainText(before) + (text + PlainText(after)) == content
    ensures CarriesNotice(before + [Plain(notice + text)] + after, content, notice)
  {
    var pieces := before + [Plain(notice + text)] + after;
    hide PlainText;
    assert pieces[|before|] == Plain(notice + text) && pieces[..|before|] == before && pieces[|before| + 1..] == after;
    assert (notice + text)[|notice|..] == text;
    assert PlainText(before) + text + PlainText(after) == content;
  }

  lemma MorePieces(pieces: seq<Piece>, content: string, notice: string, more: seq<Piece>)
    requires CarriesNotice(pieces, content, notice) && PlainText(more) == ""
    ensures CarriesNotice(pieces + more, content, notice)
  {
    hide PlainText;
    var j :| 0 <= j < |pieces| && pieces[j].Plain? && notice <= pieces[j].text
      && PlainText(pieces[..j]) + pieces[j].text[|notice|..] + PlainText(pieces[j + 1..]) == content;
    PlainTextConcat(pieces[j + 1..], more);
    assert (pieces + more)[..j] == pieces[..j] && (pieces + more)[j + 1..] == pieces[j + 1..] + more;
    assert (pieces + more)[j] == pieces[j];
  }

  /** The pieces shown for a choice are its content in the open, with the notice if the choice receives it. */
  lemma PiecesCarryTheNotice(lines: seq<Line>, state: SseState, display: Option<Style>, shortcut: bool, index: int)
    requires state.notice.Some? ==> state.notice.value != ""
    ensures var pieces := StreamPieces(lines, state, display, shortcut, index);
      var content := Contents(PartsOf(lines, index));
      if state.notice.Some? && index == Recipient(lines, state, display, shortcut)
      then CarriesNotice(pieces, content, state.notice.value)
      else PlainText(pieces) == content
  {
    hide Delivered, PartsOf, PiecesOfAll, OpenAfterAll, LeftAtEnd, Taker, CarriesNotice, CarriedAt, PlainText, Contents,
      When;
    var open, raws := IsOpen(state, display, index), Delivered(lines, state, display, shortcut, true, index);
    var content, last := Contents(PartsOf(lines, index)), When(OpenAfterAll(open, raws), End);
    var left := LeftAtEnd(lines, state, display, shortcut);
    var pieces, end := PiecesOfAll(open, raws), When(left.Some? && index == 0, Plain(NoticeText(left, index)));
    var k := TakenParts(lines, state, display, shortcut, index);
    PlainTextWhen(OpenAfterAll(open, raws), End);
    PlainTextWhen(left.Some? && index == 0, Plain(NoticeText(left, index)));
    PlainTextOfAll(open, raws);
    PlainTextConcat(last, end);
    PlainTextConcat(pieces, last + end);
    assert pieces + last + end == pieces + (last + end);
    if Taker(lines, state, display, shortcut) == Some(index) {
      CarriedPieces(open, Delivered(lines, state, display, shortcut, false, index), raws, state.notice.value, k);
      MorePieces(pieces, content, state.notice.value, last + end);
    } else if left.Some? && index == 0 {
      PlainTextConcat(pieces, last);
      NoticeAtEnd(pieces + last, left.value, content);
    }
  }

  lemma NoticeAtEnd(pieces: seq<Piece>, notice: string, content: string)
    requires PlainText(pieces) == content
    ensures CarriesNotice(pieces + When(true, Plain(notice)), content, notice)
  {
    assert PlainText([]) == "" && notice + "" == notice;
    NoticeAmong(pieces, notice, "", [], content);
    assert pieces + [Plain(notice)] + [] == pieces + When(true, Plain(notice));
  }

  /** In every stream that reaches `[DONE]`, each choice shows its content outside well-bracketed blocks; the choice
      that takes the notice, or the first one if none does, shows the notice there too, exactly once and in one
      piece. */
  lemma NoticeIsShownOnce(lines: seq<Line>, state: SseState, display: Option<Style>, shortcut: bool, index: int)
    requires ReachesDone(lines) && (state.notice.Some? ==> state.notice.value != "")
    ensures Shows(Shown(lines, state, display, shortcut, index), Contents(PartsOf(lines, index)),
                  if index == Recipient(lines, state, display, shortcut) then state.notice else None,
                  display, IsOpen(state, display, index))
  {
    hide Shown, StreamPieces, PartsOf, DisplayedAs, CarriesNotice, PlainText, Contents, ReachesDone, Recipient;
    ShownInPieces(lines, state, display, shortcut, index);
    PiecesCarryTheNotice(lines, state, display, shortcut, index);
  }
}
