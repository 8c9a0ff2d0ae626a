/** The rewriting of a stream: one line at a time, with the accumulator and the display, and the loop over the lines. */
module Sse {
  import opened Collections
  import opened Options
  import opened ThinkingBlocks
  import opened Keys
  import opened ReasoningCache
  import opened Prepare
  import opened Stream
  import opened Deltas
  import opened Staging
  import opened Accumulator
  import opened Display
  import opened Notice
  import opened SseStream

  /** What a line is replaced by. `Closed` stands for the closing chunk, the notice chunk and `[DONE]`. */
  datatype Out = Verbatim | Sent(chunk: Chunk) | Closed(closing: Option<Chunk>, notice: Option<string>)

  /** What accumulates: the slow path feeds the accumulator, the shortcut does not. */
  ghost function Accumulated(line: Line, state: SseState, display: Option<Style>,
                             choices: map<int, StreamingChoice>): map<int, StreamingChoice> {
    if !line.Event? || TakesFastPath(line, state, display) then choices
    else Ingested(choices, Fed(line.chunk, state.notice))
  }

  /** What has accumulated when the stream ends, at `[DONE]` or before it. */
  ghost function AccumulatedOver(lines: seq<Line>, state: SseState, display: Option<Style>,
                                 choices: map<int, StreamingChoice>): map<int, StreamingChoice>
    decreases |lines|
  {
    if lines == [] || lines[0].Done? then choices
    else AccumulatedOver(lines[1..], StateAfter(lines[0], state, display, true), display,
                         Accumulated(lines[0], state, display, choices))
  }

  /** The finished choices that a line has more for. */
  ghost function ReopenedBy(line: Line, state: SseState, display: Option<Style>,
                            choices: map<int, StreamingChoice>): set<int> {
    if !line.Event? || TakesFastPath(line, state, display) then {} else Reopened(choices, Fed(line.chunk, state.notice))
  }

  /** Nothing is accumulated for choice `i` in chunks after the one that finishes it. */
  ghost predicate FinishComesLast(lines: seq<Line>, state: SseState, display: Option<Style>,
                                  choices: map<int, StreamingChoice>, i: int)
    decreases |lines|
  {
    lines == [] || lines[0].Done?
    || (i !in ReopenedBy(lines[0], state, display, choices)
        && FinishComesLast(lines[1..], StateAfter(lines[0], state, display, true), display,
                           Accumulated(lines[0], state, display, choices), i))
  }

  /** The end of the stream closes every open block and carries a notice that is still pending. */
  ghost predicate ClosedBy(out: Out, state: SseState, display: Option<Style>) {
    && out.Closed? && out.notice == state.notice
    && (if display.None? then out.closing.None? else ClosesExactly(out.closing, state.open, display.value))
  }

  ghost function OutText(out: Out, index: int): string {
    match out
    case Verbatim => ""
    case Sent(chunk) => TextFor(chunk, index)
    case Closed(closing, notice) =>
      (if closing.Some? then TextFor(closing.value, index) else "") + NoticeText(notice, index)
  }

  ghost function OutsText(outs: seq<Out>, index: int): string {
    if outs == [] then "" else OutsText(outs[..|outs| - 1], index) + OutText(outs[|outs| - 1], index)
  }

  ghost predicate HasPartFor(chunk: Chunk, index: int) {
    exists k :: 0 <= k < |chunk| && chunk[k].index == index
  }

  lemma HasPartForCons(raw: ChunkChoice, rest: Chunk, index: int)
    ensures HasPartFor([raw] + rest, index) <==> raw.index == index || HasPartFor(rest, index)
  {
    var chunk := [raw] + rest;
    assert chunk[0] == raw;
    if k :| 0 <= k < |rest| && rest[k].index == index { assert chunk[k + 1] == rest[k]; }
    if k :| 0 <= k < |chunk| && chunk[k].index == index { assert k > 0 ==> rest[k - 1] == chunk[k]; }
  }

  lemma {:induction false} ClosingShows(closing: Chunk, style: Style, index: int)
    requires forall k :: 0 <= k < |closing| ==> closing[k] == ClosingPart(closing[k].index, style)
    requires forall j, k :: 0 <= j < k < |closing| ==> closing[j].index < closing[k].index
    ensures TextFor(closing, index) == if HasPartFor(closing, index) then BlockEnd(style) else ""
  {
    if closing != [] {
      hide BlockEnd, TextFor, HasPartFor;
      var raw, rest := closing[0], closing[1..];
      assert closing == [raw] + rest;
      assert forall k :: 0 <= k < |rest| ==> rest[k] == closing[k + 1];
      ClosingShows(rest, style, index);
      TextForCons(raw, rest, index);
      HasPartForCons(raw, rest, index);
      assert ContentOf(raw) == BlockEnd(style);
      if raw.index == index { OnlyOnce(raw, rest); }
    }
  }

  lemma OnlyOnce(raw: ChunkChoice, rest: Chunk)
    requires forall k :: 0 <= k < |rest| ==> raw.index < rest[k].index
    ensures !HasPartFor(rest, raw.index)
  {
  }

  /** A step of the stream shows what the specification of the whole stream says next. */
  lemma StepShows(lines: seq<Line>, out: Out, state: SseState, display: Option<Style>, index: int)
    requires lines != []
    requires lines[0].Event? ==> out == Sent(SentFor(lines[0], state, display, true))
    requires lines[0].Done? ==> ClosedBy(out, state, display)
    requires lines[0].NotData? || lines[0].Undecodable? ==> out == Verbatim
    ensures Shown(lines, state, display, true, index)
         == OutText(out, index)
            + if lines[0].Done? then ""
              else Shown(lines[1..], StateAfter(lines[0], state, display, true), display, true, index)
  {
    if lines[0].Done? && display.Some? && out.closing.Some? { ClosingShows(out.closing.value, display.value, index); }
  }

  /** What has been sent, and what the rest of the stream is still going to show. */
  ghost predicate ShownSoFar(outs: seq<Out>, lines: seq<Line>, start: SseState, rest: seq<Line>, state: SseState,
                             display: Option<Style>, finalized: bool) {
    forall index ::
      Shown(lines, start, display, true, index)
        == OutsText(outs, index) + (if finalized then "" else Shown(rest, state, display, true, index))
  }

  lemma OneMoreOut(outs: seq<Out>, lines: seq<Line>, start: SseState, rest: seq<Line>, out: Out, state: SseState,
                   display: Option<Style>)
    requires rest != [] && ShownSoFar(outs, lines, start, rest, state, display, false)
    requires rest[0].Event? ==> out == Sent(SentFor(rest[0], state, display, true))
    requires rest[0].Done? ==> ClosedBy(out, state, display)
    requires rest[0].NotData? || rest[0].Undecodable? ==> out == Verbatim
    ensures ShownSoFar(outs + [out], lines, start, rest[1..], StateAfter(rest[0], state, display, true), display,
                       rest[0].Done?)
    ensures rest[0].Done? ==> forall other :: ShownSoFar(outs + [out], lines, start, rest[1..], other, display, true)
  {
    forall index
      ensures Shown(lines, start, display, true, index)
        == OutsText(outs + [out], index)
           + (if rest[0].Done? then ""
              else Shown(rest[1..], StateAfter(rest[0], state, display, true), display, true, index))
    {
      OutsTextLast(outs, out, index);
      StepShows(rest, out, state, display, index);
      hide Shown, OutsText, OutText, StateAfter, SentFor, ClosedBy;
      Associates(OutsText(outs, index), OutText(out, index),
              if rest[0].Done? then ""
              else Shown(rest[1..], StateAfter(rest[0], state, display, true), display, true, index));
    }
    hide Shown, OutsText, OutText, StateAfter, SentFor, ClosedBy;
  }

  lemma OneMoreAccumulated(lines: seq<Line>, state: SseState, display: Option<Style>,
                           choices: map<int, StreamingChoice>)
    requires lines != []
    ensures AccumulatedOver(lines, state, display, choices)
         == if lines[0].Done? then Accumulated(lines[0], state, display, choices)
            else AccumulatedOver(lines[1..], StateAfter(lines[0], state, display, true), display,
                                 Accumulated(lines[0], state, display, choices))
  {
  }

  /** What the rest of the stream is going to accumulate, and for which choices it may come late. */
  ghost predicate OnTrack(lines: seq<Line>, start: SseState, rest: seq<Line>, state: SseState, display: Option<Style>,
                          choices: map<int, StreamingChoice>, late: set<int>, finalized: bool)
  {
    && AccumulatedOver(lines, start, display, map[])
      == (if finalized then choices else AccumulatedOver(rest, state, display, choices))
    && forall i :: FinishComesLast(lines, start, display, map[], i) ==>
         i !in late && (finalized || FinishComesLast(rest, state, display, choices, i))
  }

  lemma OneMoreOnTrack(lines: seq<Line>, start: SseState, rest: seq<Line>, state: SseState, display: Option<Style>,
                       choices: map<int, StreamingChoice>, late: set<int>, nextLate: set<int>)
    requires rest != [] && OnTrack(lines, start, rest, state, display, choices, late, false)
    requires nextLate <= if rest[0].Done? then late else late + ReopenedBy(rest[0], state, display, choices)
    ensures var next := Accumulated(rest[0], state, display, choices);
      if rest[0].Done? then forall other :: OnTrack(lines, start, rest[1..], other, display, next, nextLate, true)
      else OnTrack(lines, start, rest[1..], StateAfter(rest[0], state, display, true), display, next, nextLate, false)
  {
    OneMoreAccumulated(rest, state, display, choices);
    hide ReopenedBy, StateAfter, Accumulated, AccumulatedOver;
  }

  lemma OutsTextLast(outs: seq<Out>, out: Out, index: int)
    ensures OutsText(outs + [out], index) == OutsText(outs, index) + OutText(out, index)
  {
    assert (outs + [out])[..|outs|] == outs;
  }

  ghost function StyleOf(adapter: CursorReasoningDisplayAdapter?): Option<Style> {
    if adapter == null then None else Some(adapter.style)
  }

  ghost function OpenOf(adapter: CursorReasoningDisplayAdapter?): set<int>
    reads adapter
  {
    if adapter == null then {} else adapter.openChoices
  }

  /** `_rewrite_sse_line`: one step of the specification, with the accumulator fed on the slow path and every choice
      made final at `[DONE]`. */
  method RewriteSseLine(line: Line, accumulator: StreamAccumulator, store: ReasoningStore, contexts: seq<Context>,
                        namespace: Namespace, adapter: CursorReasoningDisplayAdapter?, notice: Option<string>)
    returns (out: Out, finalized: bool, remaining: Option<string>, ghost writes: seq<Write>)
    requires accumulator.Valid() && accumulator.pending == [] && accumulator.Uniform(contexts)
      && DistinctScopes(contexts)
    modifies accumulator, store`rows, adapter
    ensures accumulator.Valid() && accumulator.pending == []
    ensures finalized <==> line.Done?
    ensures finalized ==> accumulator.AllFinal(contexts)
    ensures finalized ==> accumulator.late == old(accumulator.late)
    ensures finalized && store.Unlimited() && old(accumulator.Keeps(store.Contents(), contexts, namespace)) ==>
      accumulator.AllKept(store.Contents(), contexts, namespace)
    ensures old(accumulator.log) <= accumulator.log
    ensures store.Unlimited() ==> old(store.Contents().Keys) <= store.Contents().Keys
    ensures old(accumulator.flushed) <= accumulator.flushed
    ensures Wrote(store.closed, old(store.rows), store.rows, writes,
                  FlushedEntries(accumulator.flushed[|old(accumulator.flushed)|..]), store.limits)
    ensures old(accumulator.FiledFor(contexts, namespace)) ==>
      if finalized then accumulator.AllFlushed(contexts, namespace) else accumulator.FiledFor(contexts, namespace)
    ensures !finalized ==> accumulator.Uniform(contexts)
    ensures !finalized && store.Unlimited() && old(accumulator.Keeps(store.Contents(), contexts, namespace)) ==>
      accumulator.Keeps(store.Contents(), contexts, namespace)
    ensures !finalized && old(FinalMeansFinished(accumulator.stages, accumulator.choices)) ==>
      && FinalMeansFinished(accumulator.stages, accumulator.choices)
      && accumulator.late <= old(accumulator.late)
           + ReopenedBy(line, SseState(old(OpenOf(adapter)), notice), StyleOf(adapter), old(accumulator.choices))
    ensures !finalized ==>
      SseState(OpenOf(adapter), remaining)
        == StateAfter(line, SseState(old(OpenOf(adapter)), notice), StyleOf(adapter), true)
    ensures line.Event? ==> out == Sent(SentFor(line, SseState(old(OpenOf(adapter)), notice), StyleOf(adapter), true))
    ensures accumulator.choices
         == Accumulated(line, SseState(old(OpenOf(adapter)), notice), StyleOf(adapter), old(accumulator.choices))
    ensures line.Done? ==> ClosedBy(out, SseState(old(OpenOf(adapter)), notice), StyleOf(adapter)) && remaining.None?
    ensures line.NotData? || line.Undecodable? ==> out == Verbatim
  {
    hide Ingested, Injected, SomeCanCarry, RewrittenAll, OpenSetAfterAll, Reopened, ClosesExactly, TextFor;
    hide FinalMeansFinished, UniformStages, Lists, RisingStages, InOrder, Accounted, Kept, DistinctScopes, NothingLost,
      FiledUnder, Wrote, FlushedEntries, Visible, RaisedAreFiled, RaisedAreKept, ReadyAreStaged, OnlyReadyRise;
    out, finalized, remaining, writes := Verbatim, false, notice, [];
    WroteNothing(store.closed, store.rows, store.limits);
    NothingFlushed(accumulator.flushed);
    match line {
      case NotData =>
      case Undecodable(_) =>
      case Done =>
        writes := accumulator.Finish(contexts, namespace, store);
        var closing: Option<Chunk> := None;
        if adapter != null { closing := adapter.FlushChunk(); }
        out, finalized, remaining := Closed(closing, notice), true, None;
      case Event(chunk, mentions) =>
        if (adapter == null || adapter.openChoices == {}) && !mentions {
          out := Sent(chunk);
        } else {
          var fed := chunk;
          if notice.Some? {
            var injected;
            fed, injected := InjectRecoveryNotice(chunk, notice.value);
            if injected { remaining := None; }
          }
          writes := accumulator.TakeChunk(fed, contexts, namespace, store);
          out := Sent(fed);
          if adapter != null {
            var rewritten := adapter.RewriteChunk(fed);
            out := Sent(rewritten);
          }
        }
    }
  }

  /** The stream loop and its `finally`: whether the stream reaches `[DONE]` or breaks off anywhere, every
      accumulated choice ends up final under every recording context with nothing pending. */
  method StreamChatResponse(lines: seq<Line>, store: ReasoningStore, contexts: seq<Context>, namespace: Namespace,
                            adapter: CursorReasoningDisplayAdapter?, notice: Option<string>)
    returns (outs: seq<Out>, accumulator: StreamAccumulator, ghost writes: seq<Write>)
    requires DistinctScopes(contexts)
    modifies store`rows, adapter
    ensures fresh(accumulator) && accumulator.Valid() && accumulator.pending == []
    ensures accumulator.AllFinal(contexts)
    ensures |outs| <= |lines| && (|outs| < |lines| ==> outs != [] && lines[|outs| - 1].Done?)
    ensures forall index ::
      OutsText(outs, index) == Shown(lines, SseState(old(OpenOf(adapter)), notice), StyleOf(adapter), true, index)
    ensures accumulator.choices
         == AccumulatedOver(lines, SseState(old(OpenOf(adapter)), notice), StyleOf(adapter), map[])
    // A choice that got nothing after its finish is in the cache under every key of every recording scope.
    ensures store.Unlimited() ==> accumulator.AllKept(store.Contents(), contexts, namespace)
    ensures store.Unlimited() ==> old(store.Contents().Keys) <= store.Contents().Keys
    // Such a choice is found there by everything it has, the ids of its calls included.
    ensures store.Unlimited() ==> accumulator.AllFound(store.Contents(), contexts, namespace)
    // Whatever the limits of the store, its final message was written, and nothing but what was flushed was.
    ensures accumulator.AllFlushed(contexts, namespace)
    ensures Wrote(store.closed, old(store.rows), store.rows, writes, FlushedEntries(accumulator.flushed), store.limits)
    // Over the whole stream each choice was queued for each scope at most twice, at rising stages.
    ensures QueuedAtMostTwice(accumulator.log)
    // If the stream reaches the end of its data, one choice shows the notice, once, and all show their content.
    ensures ReachesDone(lines) && (notice.Some? ==> notice.value != "") ==>
      ShowsNoticeOnce(outs, lines, SseState(old(OpenOf(adapter)), notice), StyleOf(adapter))
    ensures forall i <- accumulator.late ::
      !FinishComesLast(lines, SseState(old(OpenOf(adapter)), notice), StyleOf(adapter), map[], i)
  {
    hide OnTrack, Shown, OutText, OutsText, StateAfter, SentFor, ClosedBy, Accumulated, ShownSoFar, ReopenedBy,
      AccumulatedOver, FinishComesLast;
    hide FinalMeansFinished, UniformStages, Lists, RisingStages, InOrder, Accounted, Kept, DistinctScopes, NothingLost,
      FiledUnder, Wrote, FlushedEntries, Visible, RaisedAreFiled, RaisedAreKept, ReadyAreStaged, OnlyReadyRise,
      ShowsNoticeOnce, ReachesDone, StreamAccumulator.AllKept, StreamAccumulator.AllFlushed, StreamAccumulator.AllFound,
      StreamAccumulator.AllFinal, StreamAccumulator.Keeps, StreamAccumulator.FiledFor, StreamAccumulator.Valid,
      StreamAccumulator.Uniform, StreamAccumulator.Books, QueuedAtMostTwice, OpenOf, StyleOf;
    accumulator := new StreamAccumulator();
    outs := [];
    var pendingNotice, finalized := notice, false;
    var k := 0;
    writes := [];
    WroteNothing(store.closed, store.rows, store.limits);
    NothingFlushed(accumulator.flushed);
    ghost var start, style := SseState(OpenOf(adapter), notice), StyleOf(adapter);
    NothingStreamed(lines, start, style, contexts);
    accumulator.NothingFiledYet(contexts, namespace);
    while k < |lines| && !finalized
      invariant 0 <= k <= |lines| && |outs| == k
      invariant ShownSoFar(outs, lines, start, lines[k..], SseState(OpenOf(adapter), pendingNotice), style, finalized)
      invariant OnTrack(lines, start, lines[k..], SseState(OpenOf(adapter), pendingNotice), style, accumulator.choices,
                        accumulator.late, finalized)
      invariant fresh(accumulator) && accumulator.Valid() && accumulator.pending == []
      invariant !finalized ==>
        accumulator.Uniform(contexts) && FinalMeansFinished(accumulator.stages, accumulator.choices)
      invariant !finalized && store.Unlimited() ==> accumulator.Keeps(store.Contents(), contexts, namespace)
      invariant if finalized then accumulator.AllFlushed(contexts, namespace)
        else accumulator.FiledFor(contexts, namespace)
      invariant Wrote(store.closed, old(store.rows), store.rows, writes, FlushedEntries(accumulator.flushed),
                      store.limits)
      invariant store.Unlimited() ==> old(store.Contents().Keys) <= store.Contents().Keys
      invariant finalized ==> k > 0 && lines[k - 1].Done? && accumulator.AllFinal(contexts)
      invariant finalized && store.Unlimited() ==> accumulator.AllKept(store.Contents(), contexts, namespace)
    {
      var out;
      ghost var more, table, flushed;
      table, flushed := store.rows, accumulator.flushed;
      ghost var state, choices, late := SseState(OpenOf(adapter), pendingNotice), accumulator.choices, accumulator.late;
      out, finalized, pendingNotice, more := RewriteSseLine(lines[k], accumulator, store, contexts, namespace, adapter,
                                                      pendingNotice);
      MoreFlushed(store.closed, old(store.rows), table, store.rows, writes, more, flushed, accumulator.flushed,
                  store.limits);
      writes := writes + more;
      assert lines[k..][0] == lines[k] && lines[k..][1..] == lines[k + 1..];
      OneMoreOut(outs, lines, start, lines[k..], out, state, style);
      OneMoreOnTrack(lines, start, lines[k..], state, style, choices, late, accumulator.late);
      outs := outs + [out];
      k := k + 1;
    }
    EndOfStream(outs, lines, start, lines[k..], SseState(OpenOf(adapter), pendingNotice), style, accumulator.choices,
                accumulator.late, finalized);
    if !finalized {
      ghost var table, flushed, more := store.rows, accumulator.flushed, [];
      more := accumulator.Finish(contexts, namespace, store);
      MoreFlushed(store.closed, old(store.rows), table, store.rows, writes, more, flushed, accumulator.flushed,
                  store.limits);
      writes := writes + more;
    }
    if store.Unlimited() { accumulator.KeptIsFound(store.Contents(), contexts, namespace); }
    accumulator.LogIsBounded();
    if ReachesDone(lines) && (notice.Some? ==> notice.value != "") { ShownOnceInOuts(outs, lines, start, style); }
  }

  /** Every choice shows its content outside well-bracketed blocks; the one that receives the notice shows that too,
      once. */
  ghost predicate ShowsNoticeOnce(outs: seq<Out>, lines: seq<Line>, start: SseState, display: Option<Style>) {
    forall index ::
      Shows(OutsText(outs, index), Contents(PartsOf(lines, index)), NoticeOf(lines, start, display, index), display,
            IsOpen(start, display, index))
  }

  lemma ShownOnceInOuts(outs: seq<Out>, lines: seq<Line>, start: SseState, display: Option<Style>)
    requires ReachesDone(lines) && (start.notice.Some? ==> start.notice.value != "")
    requires forall index :: OutsText(outs, index) == Shown(lines, start, display, true, index)
    ensures ShowsNoticeOnce(outs, lines, start, display)
  {
    hide Shown, OutsText, Shows, ReachesDone, Recipient, PartsOf, Contents;
    forall index
      ensures Shows(OutsText(outs, index), Contents(PartsOf(lines, index)), NoticeOf(lines, start, display, index),
                    display, IsOpen(start, display, index))
    {
      NoticeIsShownOnce(lines, start, display, true, index);
    }
  }

  /** The notice, for the choice that receives it. */
  ghost function NoticeOf(lines: seq<Line>, start: SseState, display: Option<Style>, index: int): Option<string> {
    if index == Recipient(lines, start, display, true) then start.notice else None
  }

  lemma NothingFlushed(flushed: seq<Pending>)
    ensures FlushedEntries(flushed[|flushed|..]) == [] && FlushedEntries([]) == []
  {
    assert flushed[|flushed|..] == [];
  }

  /** The writes of one step more. */
  lemma MoreFlushed(closed: bool, a: Table, b: Table, c: Table, first: seq<Write>, second: seq<Write>,
                    flushed: seq<Pending>, later: seq<Pending>, limits: Limits)
    requires flushed <= later && Wrote(closed, a, b, first, FlushedEntries(flushed), limits)
    requires Wrote(closed, b, c, second, FlushedEntries(later[|flushed|..]), limits)
    ensures Wrote(closed, a, c, first + second, FlushedEntries(later), limits)
  {
    hide Wrote, FlushedEntries;
    assert later == flushed + later[|flushed|..];
    FlushedEntriesConcat(flushed, later[|flushed|..]);
    WroteMore(closed, a, b, c, first, second, FlushedEntries(flushed), FlushedEntries(later[|flushed|..]), limits);
  }

  lemma NothingStreamed(lines: seq<Line>, start: SseState, display: Option<Style>, contexts: seq<Context>)
    ensures lines[0..] == lines
    ensures ShownSoFar([], lines, start, lines, start, display, false)
    ensures OnTrack(lines, start, lines, start, display, map[], {}, false)
    ensures FinalMeansFinished(map[], map[]) && UniformStages(map[], contexts)
  {
  }

  lemma EndOfStream(outs: seq<Out>, lines: seq<Line>, start: SseState, rest: seq<Line>, state: SseState,
                    display: Option<Style>, choices: map<int, StreamingChoice>, late: set<int>, finalized: bool)
    requires ShownSoFar(outs, lines, start, rest, state, display, finalized)
    requires OnTrack(lines, start, rest, state, display, choices, late, finalized)
    requires finalized || rest == []
    ensures forall index :: OutsText(outs, index) == Shown(lines, start, display, true, index)
    ensures choices == AccumulatedOver(lines, start, display, map[])
    ensures forall i <- late :: !FinishComesLast(lines, start, display, map[], i)
  {
    forall index ensures OutsText(outs, index) == Shown(lines, start, display, true, index) {
      assert OutsText(outs, index) + "" == OutsText(outs, index);
    }
  }
}
