/** Mirroring streamed reasoning into the visible content as thinking blocks. */
module Display {
  import opened Collections
  import opened Options
  import opened ThinkingBlocks
  import opened Transcript
  import opened Stream

  // ---------------------------------------------------------------- one part

  predicate Closes(raw: ChunkChoice) {
    ContentOf(raw) != "" || (raw.delta.Delta? && raw.delta.calls != []) || raw.finish.Some?
  }

  /** A missing delta becomes an empty one. */
  function DeltaOf(raw: ChunkChoice): (delta: Delta)
    ensures delta.Delta?
  {
    if raw.delta.Delta? then raw.delta else Delta(Unset, Missing, None, [])
  }

  /** What is shown for one part: markers, escaped reasoning, and the content itself. */
  datatype Piece = Start | End | Escaped(text: string) | Plain(text: string)

  function When(condition: bool, piece: Piece): seq<Piece> {
    if condition then [piece] else []
  }

  ghost function PiecesOf(open: bool, raw: ChunkChoice): seq<Piece> {
    var reasoning, content := ReasoningOf(raw), ContentOf(raw);
    When(reasoning != "" && !open, Start) + When(reasoning != "", Escaped(reasoning))
    + When((open || reasoning != "") && Closes(raw), End) + When(content != "", Plain(content))
  }

  function OpenAfter(open: bool, raw: ChunkChoice): bool {
    (open || ReasoningOf(raw) != "") && !Closes(raw)
  }

  ghost function RenderPiece(piece: Piece, style: Style): string {
    match piece
    case Start => BlockStart(style)
    case End => BlockEnd(style)
    case Escaped(text) => HtmlEscape(text)
    case Plain(text) => text
  }

  ghost function Render(pieces: seq<Piece>, style: Style): string {
    if pieces == [] then "" else RenderPiece(pieces[0], style) + Render(pieces[1..], style)
  }

  /** The text shown for one part. */
  function PartText(open: bool, raw: ChunkChoice, style: Style): string {
    var reasoning := ReasoningOf(raw);
    (if reasoning != "" && !open then BlockStart(style) else "")
    + (if reasoning != "" then HtmlEscape(reasoning) else "")
    + (if (open || reasoning != "") && Closes(raw) then BlockEnd(style) else "") + ContentOf(raw)
  }

  /** The rewritten part: its content is replaced if anything is mirrored, and left alone otherwise. */
  function Rewritten(open: bool, raw: ChunkChoice, style: Style): ChunkChoice {
    var delta := DeltaOf(raw);
    if ReasoningOf(raw) != "" || (open && Closes(raw))
    then raw.(delta := delta.(content := Str(PartText(open, raw, style))))
    else raw.(delta := delta)
  }

  ghost function RewrittenAll(open: set<int>, chunk: Chunk, style: Style): Chunk
    decreases |chunk|
  {
    if chunk == [] then []
    else
      [Rewritten(chunk[0].index in open, chunk[0], style)]
      + RewrittenAll(OpenSetAfter(open, chunk[0]), chunk[1..], style)
  }

  function OpenSetAfter(open: set<int>, raw: ChunkChoice): set<int> {
    if OpenAfter(raw.index in open, raw) then open + {raw.index} else open - {raw.index}
  }

  function OpenSetAfterAll(open: set<int>, chunk: Chunk): set<int>
    decreases |chunk|
  {
    if chunk == [] then open else OpenSetAfterAll(OpenSetAfter(open, chunk[0]), chunk[1..])
  }

  // ---------------------------------------------------------------- the adapter

  class CursorReasoningDisplayAdapter {
    const style: Style
    var openChoices: set<int>

    constructor (style: Style)
      ensures this.style == style && openChoices == {}
    {
      this.style := style;
      openChoices := {};
    }

    method RewritePart(raw: ChunkChoice) returns (rewritten: ChunkChoice)
      modifies this
      ensures rewritten == Rewritten(raw.index in old(openChoices), raw, style)
      // Only the content changes; a missing delta becomes an empty one.
      ensures rewritten.index == raw.index && rewritten.finish == raw.finish && rewritten.delta.Delta?
      ensures if raw.delta.Delta?
        then rewritten.delta == raw.delta.(content := rewritten.delta.content)
        else rewritten.delta == Delta(Unset, rewritten.delta.content, None, [])
      ensures openChoices == OpenSetAfter(old(openChoices), raw)
    {
      var delta := DeltaOf(raw);
      var mirrored, any := "", false;
      ghost var open, reasoning := raw.index in openChoices, ReasoningOf(raw);
      hide HtmlEscape, BlockStart, BlockEnd;
      if delta.reasoning.Some? && delta.reasoning.value != "" {
        if raw.index !in openChoices {
          mirrored := mirrored + BlockStart(style);
          openChoices := openChoices + {raw.index};
        }
        mirrored := mirrored + HtmlEscape(delta.reasoning.value);
        any := true;
      }
      assert mirrored
          == (if reasoning != "" && !open then BlockStart(style) else "")
             + (if reasoning != "" then HtmlEscape(reasoning) else "");
      var content := if delta.content.Str? then delta.content.text else "";
      ghost var before := mirrored;
      if raw.index in openChoices && (content != "" || delta.calls != [] || raw.finish.Some?) {
        mirrored := mirrored + BlockEnd(style);
        openChoices := openChoices - {raw.index};
        any := true;
      }
      assert mirrored == before + if (open || reasoning != "") && Closes(raw) then BlockEnd(style) else "";
      if any {
        delta := delta.(content := Str(mirrored + content));
      }
      rewritten := raw.(delta := delta);
    }

    method RewriteChunk(chunk: Chunk) returns (rewritten: Chunk)
      modifies this
      ensures rewritten == RewrittenAll(old(openChoices), chunk, style)
      ensures openChoices == OpenSetAfterAll(old(openChoices), chunk)
    {
      rewritten := [];
      var k := 0;
      assert chunk[0..] == chunk;
      while k < |chunk|
        invariant 0 <= k <= |chunk|
        invariant rewritten + RewrittenAll(openChoices, chunk[k..], style)
               == RewrittenAll(old(openChoices), chunk, style)
        invariant OpenSetAfterAll(openChoices, chunk[k..]) == OpenSetAfterAll(old(openChoices), chunk)
      {
        hide Rewritten, OpenSetAfter;
        assert chunk[k..][0] == chunk[k] && chunk[k..][1..] == chunk[k + 1..];
        ghost var rest := RewrittenAll(OpenSetAfter(openChoices, chunk[k]), chunk[k + 1..], style);
        var next := RewritePart(chunk[k]);
        assert rewritten + ([next] + rest) == (rewritten + [next]) + rest;
        rewritten := rewritten + [next];
        k := k + 1;
      }
    }

    /** Closes whatever is still open, in order of choice index. */
    method FlushChunk() returns (closing: Option<Chunk>)
      modifies this
      ensures openChoices == {}
      ensures ClosesExactly(closing, old(openChoices), style)
    {
      if openChoices == {} { return None; }
      var chunk: Chunk := [];
      var rest := openChoices;
      while rest != {}
        invariant openChoices == old(openChoices)
        invariant ClosedSoFar(chunk, rest, openChoices, style)
        decreases rest
      {
        LeastExists(rest);
        var least :| least in rest && forall i <- rest :: least <= i;
        OneMoreClosed(chunk, rest, least, openChoices, style);
        hide ClosedSoFar;
        chunk := chunk + [ClosingPart(least, style)];
        rest := rest - {least};
      }
      openChoices := {};
      return Some(chunk);
    }
  }

  /** Closing parts for the open choices outside `rest`, which all come before those in `rest`. */
  ghost predicate ClosedSoFar(chunk: Chunk, rest: set<int>, open: set<int>, style: Style) {
    && rest <= open
    && (forall k :: 0 <= k < |chunk| ==> chunk[k] == ClosingPart(chunk[k].index, style) && chunk[k].index in open)
    && (forall i <- open :: i in rest || exists k :: 0 <= k < |chunk| && chunk[k].index == i)
    && (forall j, k :: 0 <= j < k < |chunk| ==> chunk[j].index < chunk[k].index)
    && forall k, i :: 0 <= k < |chunk| && i in rest ==> chunk[k].index < i
  }

  lemma OneMoreClosed(chunk: Chunk, rest: set<int>, least: int, open: set<int>, style: Style)
    requires ClosedSoFar(chunk, rest, open, style)
    requires least in rest && forall i <- rest :: least <= i
    ensures ClosedSoFar(chunk + [ClosingPart(least, style)], rest - {least}, open, style)
  {
    hide BlockEnd;
    var longer := chunk + [ClosingPart(least, style)];
    assert longer[|chunk|].index == least && forall k :: 0 <= k < |chunk| ==> longer[k] == chunk[k];
    forall i | i in open ensures i in rest - {least} || exists k :: 0 <= k < |longer| && longer[k].index == i {
      if i !in rest {
        var k :| 0 <= k < |chunk| && chunk[k].index == i;
        assert longer[k].index == i;
      }
    }
  }

  /** One closing part for each open choice, in order of index; no chunk at all if none is open. */
  ghost predicate ClosesExactly(closing: Option<Chunk>, open: set<int>, style: Style) {
    && (closing.None? <==> open == {})
    && (closing.Some? ==>
      && (forall k :: 0 <= k < |closing.value| ==>
            closing.value[k] == ClosingPart(closing.value[k].index, style) && closing.value[k].index in open)
      && (forall i <- open :: exists k :: 0 <= k < |closing.value| && closing.value[k].index == i)
      && forall j, k :: 0 <= j < k < |closing.value| ==> closing.value[j].index < closing.value[k].index)
  }

  function ClosingPart(index: int, style: Style): ChunkChoice {
    ChunkChoice(index, None, Delta(Unset, Str(BlockEnd(style)), None, []))
  }

  lemma EmptyOrInhabited(indices: set<int>)
    ensures indices == {} || exists i :: i in indices
  {
    if forall i :: i !in indices { assert indices == {}; }
  }

  lemma {:induction false} LeastExists(indices: set<int>)
    requires indices != {}
    ensures exists least :: least in indices && forall i <- indices :: least <= i
  {
    EmptyOrInhabited(indices);
    var x :| x in indices;
    if indices != {x} {
      LeastExists(indices - {x});
      var m :| m in indices - {x} && forall i <- indices - {x} :: m <= i;
      var best := if x <= m then x else m;
      assert forall i <- indices :: i == x || i in indices - {x};
      assert best in indices && forall i <- indices :: best <= i;
    }
  }

  // ---------------------------------------------------------------- a whole stream, seen by one choice

  ghost function PiecesOfAll(open: bool, raws: seq<ChunkChoice>): seq<Piece>
    decreases |raws|
  {
    if raws == [] then [] else PiecesOf(open, raws[0]) + PiecesOfAll(OpenAfter(open, raws[0]), raws[1..])
  }

  function OpenAfterAll(open: bool, raws: seq<ChunkChoice>): bool
    decreases |raws|
  {
    if raws == [] then open else OpenAfterAll(OpenAfter(open, raws[0]), raws[1..])
  }

  /** Everything shown for the choice by the end of the stream, the flush included. */
  ghost function ShownPieces(raws: seq<ChunkChoice>): seq<Piece> {
    PiecesOfAll(false, raws) + When(OpenAfterAll(false, raws), End)
  }

  ghost function ShownText(raws: seq<ChunkChoice>, style: Style): string {
    Render(ShownPieces(raws), style)
  }

  // ---------------------------------------------------------------- markers alternate

  /** Reads the pieces as brackets: start only when closed, end only when open, escaped text only inside, content
      only outside. */
  ghost predicate Bracketed(pieces: seq<Piece>, open: bool, finallyOpen: bool) {
    if pieces == [] then open == finallyOpen
    else match pieces[0]
      case Start => !open && Bracketed(pieces[1..], true, finallyOpen)
      case End => open && Bracketed(pieces[1..], false, finallyOpen)
      case Escaped(_) => open && Bracketed(pieces[1..], open, finallyOpen)
      case Plain(_) => !open && Bracketed(pieces[1..], open, finallyOpen)
  }

  lemma {:induction false} BracketedConcat(a: seq<Piece>, b: seq<Piece>, open: bool, middle: bool, finallyOpen: bool)
    requires Bracketed(a, open, middle) && Bracketed(b, middle, finallyOpen)
    ensures Bracketed(a + b, open, finallyOpen)
  {
    if a == [] {
      assert a + b == b;
    } else {
      assert (a + b)[1..] == a[1..] + b;
      match a[0]
      case Start => BracketedConcat(a[1..], b, true, middle, finallyOpen);
      case End => BracketedConcat(a[1..], b, false, middle, finallyOpen);
      case _ => BracketedConcat(a[1..], b, open, middle, finallyOpen);
    }
  }

  lemma BracketedOne(open: bool, raw: ChunkChoice)
    ensures Bracketed(PiecesOf(open, raw), open, OpenAfter(open, raw))
  {
    var reasoning, content := ReasoningOf(raw), ContentOf(raw);
    var inside, now := open || reasoning != "", OpenAfter(open, raw);
    var start, escaped := When(reasoning != "" && !open, Start), When(reasoning != "", Escaped(reasoning));
    var end, plain := When(inside && Closes(raw), End), When(content != "", Plain(content));
    BracketedWhen(reasoning != "" && !open, Start, open);
    BracketedWhen(reasoning != "", Escaped(reasoning), inside);
    BracketedWhen(inside && Closes(raw), End, inside);
    BracketedWhen(content != "", Plain(content), now);
    hide Bracketed;
    BracketedConcat(start, escaped, open, inside, inside);
    BracketedConcat(start + escaped, end, open, inside, now);
    BracketedConcat(start + escaped + end, plain, open, now, now);
  }

  lemma BracketedWhen(condition: bool, piece: Piece, open: bool)
    ensures Bracketed(When(condition, piece), open,
                      if condition && piece.Start? then true else if condition && piece.End? then false else open)
         <==> condition ==> open == (piece.End? || piece.Escaped?)
  {
    if condition { assert [piece][1..] == []; }
  }

  lemma {:induction false} BracketedAll(open: bool, raws: seq<ChunkChoice>)
    ensures Bracketed(PiecesOfAll(open, raws), open, OpenAfterAll(open, raws))
    decreases |raws|
  {
    if raws != [] {
      var now := OpenAfter(open, raws[0]);
      BracketedOne(open, raws[0]);
      BracketedAll(now, raws[1..]);
      BracketedConcat(PiecesOf(open, raws[0]), PiecesOfAll(now, raws[1..]), open, now, OpenAfterAll(open, raws));
    }
  }

  /** Content, tool calls or the finish of the choice. */
  ghost predicate EndsReasoning(raw: ChunkChoice) {
    raw.finish.Some?
    || (raw.delta.Delta? && (raw.delta.calls != [] || (raw.delta.content.Str? && raw.delta.content.text != "")))
  }

  ghost predicate BringsReasoning(raw: ChunkChoice) {
    raw.delta.Delta? && raw.delta.reasoning.Some? && raw.delta.reasoning.value != ""
  }

  /** A block is open exactly if reasoning has come that no content, tool calls or finish came with or after. */
  lemma {:induction false} BlockIsOpenExactly(raws: seq<ChunkChoice>)
    ensures OpenAfterAll(false, raws)
      <==> exists k :: 0 <= k < |raws| && BringsReasoning(raws[k])
             && forall j :: k <= j < |raws| ==> !EndsReasoning(raws[j])
  {
    if raws != [] {
      var n := |raws| - 1;
      var front := raws[..n];
      assert raws == front + [raws[n]];
      BlockIsOpenExactly(front);
      OpenAfterLast(front, raws[n]);
      var open := OpenAfterAll(false, front);
      assert OpenAfter(open, raws[n]) <==> (open || BringsReasoning(raws[n])) && !EndsReasoning(raws[n]);
      hide OpenAfter, OpenAfterAll, BringsReasoning, EndsReasoning;
      if open && !EndsReasoning(raws[n]) {
        var k :| 0 <= k < n && BringsReasoning(front[k]) && forall j :: k <= j < n ==> !EndsReasoning(front[j]);
        assert BringsReasoning(raws[k]) && forall j :: k <= j < |raws| ==> !EndsReasoning(raws[j]);
      }
      if k :| 0 <= k < |raws| && BringsReasoning(raws[k]) && forall j :: k <= j < |raws| ==> !EndsReasoning(raws[j]) {
        assert k < n ==> BringsReasoning(front[k]) && forall j :: k <= j < n ==> !EndsReasoning(front[j]);
      }
    }
  }

  lemma {:induction false} OpenAfterLast(front: seq<ChunkChoice>, last: ChunkChoice)
    ensures forall open :: OpenAfterAll(open, front + [last]) == OpenAfter(OpenAfterAll(open, front), last)
  {
    hide OpenAfter;
    if front == [] {
      assert [] + [last] == [last] && [last][1..] == [];
    } else {
      assert (front + [last])[1..] == front[1..] + [last];
      OpenAfterLast(front[1..], last);
    }
  }

  /** For every stream the block markers of a choice alternate and are all closed after the flush. */
  lemma MarkersAlternateAndClose(raws: seq<ChunkChoice>)
    ensures Bracketed(ShownPieces(raws), false, false)
  {
    BracketedAll(false, raws);
    var open := OpenAfterAll(false, raws);
    BracketedWhen(open, End, open);
    BracketedConcat(PiecesOfAll(false, raws), When(open, End), false, open, false);
  }

  // ---------------------------------------------------------------- streamed display equals whole-message display

  lemma {:induction false} RenderConcat(a: seq<Piece>, b: seq<Piece>, style: Style)
    ensures Render(a + b, style) == Render(a, style) + Render(b, style)
  {
    if a == [] {
      assert a + b == b;
    } else {
      assert (a + b)[1..] == a[1..] + b;
      RenderConcat(a[1..], b, style);
    }
  }

  lemma RenderWhen(condition: bool, piece: Piece, style: Style)
    ensures Render(When(condition, piece), style) == if condition then RenderPiece(piece, style) else ""
  {
    if condition { assert [piece][1..] == []; }
  }

  /** The text shown for a part is its pieces, rendered. */
  lemma PiecesRenderToText(open: bool, raw: ChunkChoice, style: Style)
    ensures Render(PiecesOf(open, raw), style) == PartText(open, raw, style)
  {
    var reasoning, content := ReasoningOf(raw), ContentOf(raw);
    var start, escaped := When(reasoning != "" && !open, Start), When(reasoning != "", Escaped(reasoning));
    var end, plain := When((open || reasoning != "") && Closes(raw), End), When(content != "", Plain(content));
    RenderWhen(reasoning != "" && !open, Start, style);
    RenderWhen(reasoning != "", Escaped(reasoning), style);
    RenderWhen((open || reasoning != "") && Closes(raw), End, style);
    RenderWhen(content != "", Plain(content), style);
    hide Render, HtmlEscape, BlockStart, BlockEnd;
    RenderConcat(start, escaped, style);
    RenderConcat(start + escaped, end, style);
    RenderConcat(start + escaped + end, plain, style);
  }

  /** The text shown for a run of parts. */
  ghost function PartsText(open: bool, raws: seq<ChunkChoice>, style: Style): string
    decreases |raws|
  {
    if raws == [] then "" else PartText(open, raws[0], style) + PartsText(OpenAfter(open, raws[0]), raws[1..], style)
  }

  lemma {:induction false} AllPiecesRenderToText(open: bool, raws: seq<ChunkChoice>, style: Style)
    ensures Render(PiecesOfAll(open, raws), style) == PartsText(open, raws, style)
    decreases |raws|
  {
    if raws != [] {
      var now := OpenAfter(open, raws[0]);
      PiecesRenderToText(open, raws[0], style);
      AllPiecesRenderToText(now, raws[1..], style);
      RenderConcat(PiecesOf(open, raws[0]), PiecesOfAll(now, raws[1..]), style);
    }
  }

  /** No part with non-empty reasoning comes after a part that closes the block. */
  ghost predicate ReasoningComesFirst(raws: seq<ChunkChoice>) {
    forall a, b :: 0 <= a < b < |raws| && Closes(raws[a]) ==> ReasoningOf(raws[b]) == ""
  }

  ghost predicate NoReasoning(raws: seq<ChunkChoice>) {
    forall b :: 0 <= b < |raws| ==> ReasoningOf(raws[b]) == ""
  }

  lemma ReasoningComesFirstInRest(raws: seq<ChunkChoice>)
    requires ReasoningComesFirst(raws) && raws != []
    ensures ReasoningComesFirst(raws[1..])
    ensures Closes(raws[0]) ==> NoReasoning(raws[1..])
  {
  }

  /** Without reasoning a closed choice shows its content as it is. */
  lemma {:induction false} ShowsContent(raws: seq<ChunkChoice>, style: Style)
    requires NoReasoning(raws)
    ensures PartsText(false, raws, style) == Contents(raws) && !OpenAfterAll(false, raws) && Reasonings(raws) == ""
  {
    if raws != [] {
      var raw := raws[0];
      assert PartText(false, raw, style) == ContentOf(raw) && OpenAfter(false, raw) == false;
      hide PartText, OpenAfter, ContentOf;
      ShowsContent(raws[1..], style);
    }
  }

  ghost function ClosingText(open: bool, style: Style): string {
    if open then BlockEnd(style) else ""
  }

  lemma EscapeNothing()
    ensures HtmlEscape("") == ""
  {
    ReplaceAllAbsent("", HTML_ENTITIES);
  }

  /** The part that closes the block, and the content after it. */
  lemma ShowsLastOfBlock(raw: ChunkChoice, rest: seq<ChunkChoice>, style: Style)
    requires Closes(raw) && PartsText(false, rest, style) == Contents(rest) && Reasonings(rest) == ""
      && !OpenAfterAll(false, rest)
    ensures PartsText(true, [raw] + rest, style) + ClosingText(OpenAfterAll(true, [raw] + rest), style)
         == HtmlEscape(Reasonings([raw] + rest)) + BlockEnd(style) + Contents([raw] + rest)
  {
    var raws := [raw] + rest;
    var text := HtmlEscape(ReasoningOf(raw));
    EscapedPart(raw, style);
    hide HtmlEscape, BlockEnd, Closes, PartText, ContentOf, ReasoningOf;
    assert raws[1..] == rest;
    assert Reasonings(raws) == ReasoningOf(raw) + Reasonings(rest) == ReasoningOf(raw);
    assert PartsText(true, raws, style) == (text + BlockEnd(style) + ContentOf(raw)) + Contents(rest);
    Associates(text + BlockEnd(style), ContentOf(raw), Contents(rest));
  }

  lemma EscapedPart(raw: ChunkChoice, style: Style)
    ensures PartText(true, raw, style)
         == HtmlEscape(ReasoningOf(raw)) + (if Closes(raw) then BlockEnd(style) else "") + ContentOf(raw)
  {
    EscapeNothing();
    hide HtmlEscape, BlockEnd, Closes;
  }

  /** A part inside the block. */
  lemma ShowsMoreOfBlock(raw: ChunkChoice, rest: seq<ChunkChoice>, style: Style)
    requires !Closes(raw)
    requires PartsText(true, rest, style) + ClosingText(OpenAfterAll(true, rest), style)
         == HtmlEscape(Reasonings(rest)) + BlockEnd(style) + Contents(rest)
    ensures PartsText(true, [raw] + rest, style) + ClosingText(OpenAfterAll(true, [raw] + rest), style)
         == HtmlEscape(Reasonings([raw] + rest)) + BlockEnd(style) + Contents([raw] + rest)
  {
    var raws := [raw] + rest;
    assert raws[1..] == rest;
    EscapeNothing();
    ReplaceAllConcat(ReasoningOf(raw), Reasonings(rest), HTML_ENTITIES);
    var escaped, restText := HtmlEscape(ReasoningOf(raw)), HtmlEscape(Reasonings(rest));
    assert HtmlEscape(Reasonings(raws)) == escaped + restText;
    assert ContentOf(raw) == "" && OpenAfter(true, raw);
    hide HtmlEscape, BlockEnd, Closes;
    assert PartText(true, raw, style) == escaped;
    assert Contents(raws) == Contents(rest);
    hide PartText, ReasoningOf, ContentOf;
    Associates(escaped, PartsText(true, rest, style), ClosingText(OpenAfterAll(true, rest), style));
    hide ClosingText;
    Associates(escaped, restText + BlockEnd(style), Contents(rest));
    Associates(escaped, restText, BlockEnd(style));
  }

  /** From inside a block: the rest of the reasoning, the closing marker, the content. */
  lemma {:induction false} ShowsRestOfBlock(raws: seq<ChunkChoice>, style: Style)
    requires ReasoningComesFirst(raws)
    ensures PartsText(true, raws, style) + ClosingText(OpenAfterAll(true, raws), style)
         == HtmlEscape(Reasonings(raws)) + BlockEnd(style) + Contents(raws)
  {
    if raws == [] {
      EscapeNothing();
    } else {
      var raw, rest := raws[0], raws[1..];
      assert raws == [raw] + rest;
      ReasoningComesFirstInRest(raws);
      hide PartsText, HtmlEscape, BlockEnd, ReasoningComesFirst, NoReasoning, Closes;
      if Closes(raw) {
        ShowsContent(rest, style);
        ShowsLastOfBlock(raw, rest, style);
      } else {
        ShowsRestOfBlock(rest, style);
        ShowsMoreOfBlock(raw, rest, style);
      }
    }
  }

  lemma FirstReasoningOpens(raws: seq<ChunkChoice>, style: Style)
    requires raws != [] && ReasoningOf(raws[0]) != ""
    ensures OpenAfterAll(false, raws) == OpenAfterAll(true, raws)
    ensures PartsText(false, raws, style) == BlockStart(style) + PartsText(true, raws, style)
    ensures Reasonings(raws) != ""
  {
    hide HtmlEscape, BlockEnd, BlockStart, Closes;
    var raw := raws[0];
    var a, b := HtmlEscape(ReasoningOf(raw)), if Closes(raw) then BlockEnd(style) else "";
    assert PartText(true, raw, style) == a + b + ContentOf(raw);
    assert PartText(false, raw, style) == BlockStart(style) + a + b + ContentOf(raw);
    assert BlockStart(style) + a + b + ContentOf(raw) == BlockStart(style) + (a + b + ContentOf(raw));
    Associates(BlockStart(style), PartText(true, raw, style), PartsText(OpenAfter(true, raw), raws[1..], style));
  }

  /** Once reasoning has started, the block is the folded block. */
  lemma ShowsWholeBlock(raws: seq<ChunkChoice>, style: Style)
    requires raws != [] && ReasoningComesFirst(raws) && ReasoningOf(raws[0]) != ""
    ensures PartsText(false, raws, style) + ClosingText(OpenAfterAll(false, raws), style)
         == Fold(style, Reasonings(raws), Contents(raws))
    ensures Reasonings(raws) != ""
  {
    ShowsRestOfBlock(raws, style);
    hide HtmlEscape, BlockEnd, BlockStart, ReasoningComesFirst;
    FirstReasoningOpens(raws, style);
    var rest := PartsText(true, raws, style);
    Associates(BlockStart(style), rest, ClosingText(OpenAfterAll(true, raws), style));
    hide PartsText, OpenAfterAll, ClosingText, Reasonings, Contents;
    Associates(BlockStart(style), HtmlEscape(Reasonings(raws)) + BlockEnd(style), Contents(raws));
    Associates(BlockStart(style), HtmlEscape(Reasonings(raws)), BlockEnd(style));
  }

  /** A part without reasoning, before any block. */
  lemma ShowsBeforeBlock(raw: ChunkChoice, rest: seq<ChunkChoice>, style: Style)
    requires ReasoningOf(raw) == "" && (ContentOf(raw) != "" ==> Reasonings(rest) == "")
    requires PartsText(false, rest, style) + ClosingText(OpenAfterAll(false, rest), style)
          == Folded(style, Reasonings(rest), Contents(rest))
    ensures var raws := [raw] + rest;
      PartsText(false, raws, style) + ClosingText(OpenAfterAll(false, raws), style)
        == Folded(style, Reasonings(raws), Contents(raws))
  {
    var raws := [raw] + rest;
    assert raws[1..] == rest && PartText(false, raw, style) == ContentOf(raw) && !OpenAfter(false, raw);
    hide PartText, OpenAfter, Fold, BlockEnd;
    assert Reasonings(raws) == Reasonings(rest) && Contents(raws) == ContentOf(raw) + Contents(rest);
    Associates(ContentOf(raw), PartsText(false, rest, style), ClosingText(OpenAfterAll(false, rest), style));
    if ContentOf(raw) == "" { assert "" + Contents(rest) == Contents(rest); }
  }

  lemma {:induction false} StreamedTextEqualsFolded(raws: seq<ChunkChoice>, style: Style)
    requires ReasoningComesFirst(raws)
    ensures PartsText(false, raws, style) + ClosingText(OpenAfterAll(false, raws), style)
         == Folded(style, Reasonings(raws), Contents(raws))
  {
    hide Fold, BlockEnd, BlockStart, ReasoningComesFirst, NoReasoning, PartText, OpenAfter, ReasoningOf, ContentOf;
    if raws != [] {
      var raw, rest := raws[0], raws[1..];
      assert raws == [raw] + rest;
      ReasoningComesFirstInRest(raws);
      if ReasoningOf(raw) != "" {
        ShowsWholeBlock(raws, style);
      } else {
        StreamedTextEqualsFolded(rest, style);
        if Closes(raw) { ShowsContent(rest, style); }
        ContentCloses(raw);
        ShowsBeforeBlock(raw, rest, style);
      }
    }
  }

  lemma ContentCloses(raw: ChunkChoice)
    ensures ContentOf(raw) != "" ==> Closes(raw)
  {
  }

  /** If no reasoning comes after content, tool calls or the finish, the stream shows exactly what folding the
      reasoning of the complete message into its content shows. */
  lemma StreamedEqualsFolded(raws: seq<ChunkChoice>, style: Style)
    requires ReasoningComesFirst(raws)
    ensures ShownText(raws, style)
         == Folded(style, Reasonings(raws), Contents(raws))
  {
    var open := OpenAfterAll(false, raws);
    StreamedTextEqualsFolded(raws, style);
    AllPiecesRenderToText(false, raws, style);
    RenderConcat(PiecesOfAll(false, raws), When(open, End), style);
    RenderWhen(open, End, style);
  }

  // ---------------------------------------------------------------- choices do not disturb each other

  function TextFor(chunk: Chunk, index: int): string { Contents(PartsFor(chunk, index)) }

  /** What the rewritten chunks show for one choice. */
  ghost function StreamText(open: set<int>, chunks: seq<Chunk>, style: Style, index: int): string
    decreases |chunks|
  {
    if chunks == [] then ""
    else
      TextFor(RewrittenAll(open, chunks[0], style), index)
      + StreamText(OpenSetAfterAll(open, chunks[0]), chunks[1..], style, index)
  }

  lemma RewrittenShowsPartText(open: bool, raw: ChunkChoice, style: Style)
    ensures ContentOf(Rewritten(open, raw, style)) == PartText(open, raw, style)
  {
  }

  lemma {:induction false} ChunkTextIsOwn(open: set<int>, chunk: Chunk, style: Style, index: int)
    ensures TextFor(RewrittenAll(open, chunk, style), index) == PartsText(index in open, PartsFor(chunk, index), style)
    ensures index in OpenSetAfterAll(open, chunk) <==> OpenAfterAll(index in open, PartsFor(chunk, index))
    decreases |chunk|
  {
    if chunk != [] {
      var raw, rest := chunk[0], chunk[1..];
      var next, nextOpen := Rewritten(raw.index in open, raw, style), OpenSetAfter(open, raw);
      ChunkTextIsOwn(nextOpen, rest, style, index);
      RewrittenShowsPartText(raw.index in open, raw, style);
      assert next.index == raw.index
        && (index in nextOpen <==> if raw.index == index then OpenAfter(index in open, raw) else index in open);
      var rewrittenRest := RewrittenAll(nextOpen, rest, style);
      assert RewrittenAll(open, chunk, style) == [next] + rewrittenRest;
      hide Rewritten, PartText, OpenAfter, OpenSetAfter;
      PartsForCons(raw, rest, index);
      PartsForCons(next, rewrittenRest, index);
      assert chunk == [raw] + rest;
      if raw.index == index {
        ContentsCons(next, PartsFor(rewrittenRest, index));
        assert ([raw] + PartsFor(rest, index))[1..] == PartsFor(rest, index);
      }
    }
  }

  lemma PartsForCons(raw: ChunkChoice, rest: Chunk, index: int)
    ensures PartsFor([raw] + rest, index)
         == if raw.index == index then [raw] + PartsFor(rest, index) else PartsFor(rest, index)
  {
    assert ([raw] + rest)[1..] == rest;
  }

  lemma ContentsCons(raw: ChunkChoice, rest: seq<ChunkChoice>)
    ensures Contents([raw] + rest) == ContentOf(raw) + Contents(rest)
  {
    assert ([raw] + rest)[1..] == rest;
  }

  /** In any interleaving of choices, what is shown for a choice depends on its own parts alone. */
  lemma {:induction false} StreamTextIsOwn(open: set<int>, chunks: seq<Chunk>, style: Style, index: int)
    ensures StreamText(open, chunks, style, index) == PartsText(index in open, StreamPartsFor(chunks, index), style)
    decreases |chunks|
  {
    if chunks != [] {
      var first, rest := PartsFor(chunks[0], index), StreamPartsFor(chunks[1..], index);
      var next := OpenSetAfterAll(open, chunks[0]);
      ChunkTextIsOwn(open, chunks[0], style, index);
      StreamTextIsOwn(next, chunks[1..], style, index);
      hide RewrittenAll, OpenSetAfterAll, PartText, PartsFor;
      PartsTextConcat(index in open, first, rest, style);
    }
  }

  lemma {:induction false} PartsTextConcat(open: bool, a: seq<ChunkChoice>, b: seq<ChunkChoice>, style: Style)
    ensures PartsText(open, a + b, style) == PartsText(open, a, style) + PartsText(OpenAfterAll(open, a), b, style)
    decreases |a|
  {
    hide PartText, OpenAfter;
    if a == [] {
      assert a + b == b;
    } else {
      assert (a + b)[1..] == a[1..] + b && (a + b)[0] == a[0];
      var next := OpenAfter(open, a[0]);
      PartsTextConcat(next, a[1..], b, style);
      Associates(PartText(open, a[0], style), PartsText(next, a[1..], style),
              PartsText(OpenAfterAll(next, a[1..]), b, style));
    }
  }
}
