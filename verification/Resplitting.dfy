/**
 A stream may be cut into deltas in any way: below the limits the message depends only on what the deltas say
 together, not on where they were split or how the fragments of different calls were interleaved.
 */
module Resplitting {
  import opened Options
  import opened Transcript
  import opened Stream
  import opened Deltas

  // ---------------------------------------------------------------- what the deltas of a stream say together

  /** The call deltas of a run of parts, in order. */
  function CallsOf(raws: seq<ChunkChoice>): seq<CallDelta> {
    if raws == [] then []
    else
      var last := raws[|raws| - 1];
      CallsOf(raws[..|raws| - 1]) + if last.delta.Delta? then last.delta.calls else []
  }

  function LastRole(raws: seq<ChunkChoice>): Role {
    if raws == [] then Assistant
    else
      var last := raws[|raws| - 1];
      if last.delta.Delta? && last.delta.role != Unset then last.delta.role else LastRole(raws[..|raws| - 1])
  }

  function LastFinish(raws: seq<ChunkChoice>): Option<string> {
    if raws == [] then None
    else if raws[|raws| - 1].finish.Some? then raws[|raws| - 1].finish
    else LastFinish(raws[..|raws| - 1])
  }

  predicate AnyReasoning(raws: seq<ChunkChoice>) {
    raws != [] && (AnyReasoning(raws[..|raws| - 1])
                   || (raws[|raws| - 1].delta.Delta? && raws[|raws| - 1].delta.reasoning.Some?))
  }

  function Whole(raws: seq<ChunkChoice>): StreamingChoice {
    StreamingChoice(LastRole(raws), Contents(raws), Reasonings(raws), AnyReasoning(raws), MergedAll([], CallsOf(raws)),
                    LastFinish(raws))
  }

  ghost predicate BelowLimits(raws: seq<ChunkChoice>) {
    |Contents(raws)| <= MAX_CONTENT_LENGTH && |Reasonings(raws)| <= MAX_CONTENT_LENGTH
  }

  lemma {:induction false} MergedConcat(calls: seq<ToolCall>, a: seq<CallDelta>, b: seq<CallDelta>)
    ensures MergedAll(calls, a + b) == MergedAll(MergedAll(calls, a), b)
  {
    hide Merged;
    if b == [] {
      assert a + b == a;
    } else {
      assert (a + b)[..|a + b| - 1] == a + b[..|b| - 1];
      MergedConcat(calls, a, b[..|b| - 1]);
    }
  }

  lemma {:induction false} SaysConcat(a: seq<ChunkChoice>, b: seq<ChunkChoice>)
    ensures CallsOf(a + b) == CallsOf(a) + CallsOf(b)
    ensures AnyReasoning(a + b) <==> AnyReasoning(a) || AnyReasoning(b)
  {
    if b == [] {
      assert a + b == a;
    } else {
      assert (a + b)[..|a + b| - 1] == a + b[..|b| - 1];
      SaysConcat(a, b[..|b| - 1]);
    }
  }

  /** Below the limits, what has accumulated is what all parts say together. */
  lemma {:induction false} AccumulatesTheWhole(raws: seq<ChunkChoice>)
    requires BelowLimits(raws)
    ensures AbsorbedAll(EMPTY_CHOICE, raws) == Whole(raws)
  {
    if raws != [] {
      var front, last := raws[..|raws| - 1], raws[|raws| - 1];
      assert raws == front + [last];
      TextsLast(front, last);
      AccumulatesTheWhole(front);
      OnePartMore(Whole(front), last, CallsOf(front));
      hide Absorbed, Contents, Reasonings, MergedAll, Appended, ContentOf, ReasoningOf;
    }
  }

  lemma OnePartMore(choice: StreamingChoice, raw: ChunkChoice, calls: seq<CallDelta>)
    requires choice.calls == MergedAll([], calls)
    requires |choice.content| + |ContentOf(raw)| <= MAX_CONTENT_LENGTH
    requires |choice.reasoning| + |ReasoningOf(raw)| <= MAX_CONTENT_LENGTH
    ensures Absorbed(choice, raw) == StreamingChoice(
      if raw.delta.Delta? && raw.delta.role != Unset then raw.delta.role else choice.role,
      choice.content + ContentOf(raw),
      choice.reasoning + ReasoningOf(raw),
      choice.hasReasoning || (raw.delta.Delta? && raw.delta.reasoning.Some?),
      MergedAll([], calls + if raw.delta.Delta? then raw.delta.calls else []),
      if raw.finish.Some? then raw.finish else choice.finish)
  {
    AbsorbedTexts(choice, raw);
    FitsWhole(choice.content, ContentOf(raw));
    FitsWhole(choice.reasoning, ReasoningOf(raw));
    if raw.delta.Delta? {
      MergedConcat([], calls, raw.delta.calls);
    } else {
      assert calls + [] == calls;
    }
    hide Appended, MergedAll, ContentOf, ReasoningOf;
  }

  lemma FitsWhole(text: string, part: string)
    requires |text| + |part| <= MAX_CONTENT_LENGTH
    ensures Appended(text, part) == text + part
  {
    if |text| == MAX_CONTENT_LENGTH { assert part == ""; }
  }

  // ---------------------------------------------------------------- what the call deltas say about each call

  /** The last id, kind and name given to call `i`. */
  function IdFor(deltas: seq<CallDelta>, i: nat): string {
    if deltas == [] then ""
    else
      var last := deltas[|deltas| - 1];
      if LastIndex(0, deltas) == i && last.id != "" then last.id else IdFor(deltas[..|deltas| - 1], i)
  }

  function KindFor(deltas: seq<CallDelta>, i: nat): string {
    if deltas == [] then "function"
    else
      var last := deltas[|deltas| - 1];
      if LastIndex(0, deltas) == i && last.kind != "" then last.kind else KindFor(deltas[..|deltas| - 1], i)
  }

  function NameFor(deltas: seq<CallDelta>, i: nat): string {
    if deltas == [] then ""
    else
      var last := deltas[|deltas| - 1];
      if LastIndex(0, deltas) == i && last.body.Some? && last.body.value.name != "" then last.body.value.name
      else NameFor(deltas[..|deltas| - 1], i)
  }

  function CallFor(deltas: seq<CallDelta>, i: nat): ToolCall {
    ToolCall(IdFor(deltas, i), KindFor(deltas, i), NameFor(deltas, i), Raw(FragmentsFor(0, deltas, i)))
  }

  function CallAt(calls: seq<ToolCall>, i: nat): ToolCall {
    if i < |calls| then calls[i] else EMPTY_CALL
  }

  lemma MergedAt(calls: seq<ToolCall>, delta: CallDelta, i: nat)
    requires i < MAX_TOOL_CALLS
    ensures CallAt(Merged(calls, delta), i)
         == if CallIndex(|calls|, delta) == i then MergedCall(CallAt(calls, i), delta) else CallAt(calls, i)
  {
    hide MergedCall;
  }

  /** Each call is the last id, kind and name given to it, and its fragments in order. */
  lemma {:induction false} CallsAreDetermined(deltas: seq<CallDelta>, i: nat)
    requires i < MAX_TOOL_CALLS
    ensures CallAt(MergedAll([], deltas), i) == CallFor(deltas, i)
  {
    if deltas != [] {
      var front, last := deltas[..|deltas| - 1], deltas[|deltas| - 1];
      CallsAreDetermined(front, i);
      CallsAreCounted([], front);
      MergedAt(MergedAll([], front), last, i);
      CallForLast(deltas, i);
      hide Merged, MergedCall, CallFor, CallAt;
    }
  }

  lemma CallForLast(deltas: seq<CallDelta>, i: nat)
    requires deltas != []
    ensures var front, last := deltas[..|deltas| - 1], deltas[|deltas| - 1];
      CallFor(deltas, i) == if LastIndex(0, deltas) == i then MergedCall(CallFor(front, i), last) else CallFor(front, i)
  {
    hide CallCount, CallIndex;
    var front := deltas[..|deltas| - 1];
    assert FragmentsFor(0, front, i) + "" == FragmentsFor(0, front, i);
  }

  /** Call deltas that name as many calls and say the same about each: exactly those merge into the same calls. */
  ghost predicate SayTheSame(a: seq<CallDelta>, b: seq<CallDelta>) {
    CallCount(0, a) == CallCount(0, b) && forall i: nat :: i < CallCount(0, a) ==> CallFor(a, i) == CallFor(b, i)
  }

  lemma SameCalls(a: seq<CallDelta>, b: seq<CallDelta>)
    ensures SayTheSame(a, b) <==> MergedAll([], a) == MergedAll([], b)
  {
    hide MergedAll, CallFor;
    CallsAreCounted([], a);
    CallsAreCounted([], b);
    AtMostMaxToolCalls([], a);
    AtMostMaxToolCalls([], b);
    forall i: nat | i < CallCount(0, a) && i < CallCount(0, b)
      ensures MergedAll([], a)[i] == MergedAll([], b)[i] <==> CallFor(a, i) == CallFor(b, i)
    {
      CallsAreDetermined(a, i);
      CallsAreDetermined(b, i);
    }
  }

  // ---------------------------------------------------------------- the theorems

  /** Two streams of a choice that say the same together, however their texts and argument fragments are split and
      interleaved, accumulate the same message. */
  lemma ResplittingKeepsTheMessage(a: seq<ChunkChoice>, b: seq<ChunkChoice>)
    requires BelowLimits(a)
    requires Contents(a) == Contents(b) && Reasonings(a) == Reasonings(b) && (AnyReasoning(a) <==> AnyReasoning(b))
    requires LastRole(a) == LastRole(b) && SayTheSame(CallsOf(a), CallsOf(b))
    ensures ToMessage(AbsorbedAll(EMPTY_CHOICE, a)) == ToMessage(AbsorbedAll(EMPTY_CHOICE, b))
  {
    hide AbsorbedAll, Contents, Reasonings, MergedAll, SayTheSame, AnyReasoning, LastRole, LastFinish, CallsOf;
    AccumulatesTheWhole(a);
    AccumulatesTheWhole(b);
    SameCalls(CallsOf(a), CallsOf(b));
  }

  /** A delta that brings nothing but the rest of the arguments of a call. */
  function Rest(index: nat, second: string): CallDelta {
    CallDelta(Some(index), "", "", Some(FunctionDelta("", Some(second))))
  }

  /** A call delta with the given arguments. */
  function WithArguments(index: nat, id: string, kind: string, name: string, arguments: string): CallDelta {
    CallDelta(Some(index), id, kind, Some(FunctionDelta(name, Some(arguments))))
  }

  lemma SplittingArguments(calls: seq<ToolCall>, index: nat, id: string, kind: string, name: string, first: string,
                           second: string)
    ensures Merged(Merged(calls, WithArguments(index, id, kind, name, first)), Rest(index, second))
         == Merged(calls, WithArguments(index, id, kind, name, first + second))
  {
    if index < MAX_TOOL_CALLS {
      var padded := Padded(calls, index + 1);
      var text := ArgumentText(padded[index].arguments);
      assert (text + first) + second == text + (first + second);
      var once := Merged(calls, WithArguments(index, id, kind, name, first));
      assert Padded(once, index + 1) == once;
    }
  }

  /** The rest of a call's arguments and a delta for another call may change places. */
  lemma RestCommutes(calls: seq<ToolCall>, index: nat, second: string, other: CallDelta)
    requires index < |calls| || index >= MAX_TOOL_CALLS
    requires other.index != Some(index)
    ensures Merged(Merged(calls, Rest(index, second)), other) == Merged(Merged(calls, other), Rest(index, second))
  {
    if index < MAX_TOOL_CALLS {
      var t := CallIndex(|calls|, other);
      assert Padded(calls, index + 1) == calls;
      if t < MAX_TOOL_CALLS {
        var rest := MergedCall(calls[index], Rest(index, second));
        hide MergedCall;
        assert Padded(calls[index := rest], t + 1) == Padded(calls, t + 1)[index := rest];
        assert Padded(Merged(calls, other), index + 1) == Merged(calls, other);
        assert Merged(calls, other)[index] == calls[index];
      }
    }
  }

  lemma {:induction false} RestMovesOver(calls: seq<ToolCall>, index: nat, second: string, others: seq<CallDelta>)
    requires index < |calls| || index >= MAX_TOOL_CALLS
    requires forall o <- others :: o.index != Some(index)
    ensures MergedAll(Merged(calls, Rest(index, second)), others)
         == Merged(MergedAll(calls, others), Rest(index, second))
  {
    if others != [] {
      var front, last := others[..|others| - 1], others[|others| - 1];
      assert forall o <- front :: o in others;
      hide Merged;
      RestMovesOver(calls, index, second, front);
      CountNeverFalls(calls, front);
      RestCommutes(MergedAll(calls, front), index, second, last);
    }
  }

  lemma {:induction false} CountNeverFalls(calls: seq<ToolCall>, deltas: seq<CallDelta>)
    ensures |calls| <= |MergedAll(calls, deltas)|
  {
    if deltas != [] {
      hide MergedCall;
      CountNeverFalls(calls, deltas[..|deltas| - 1]);
    }
  }

  /** Splitting the arguments of any indexed delta of a list in two, with the second piece anywhere behind the first
      before the next delta for the same index, changes nothing. Repeated, this covers any number of splits. */
  lemma SplitFragmentAnywhere(calls: seq<ToolCall>, before: seq<CallDelta>, index: nat, id: string, kind: string,
                              name: string, first: string, second: string, between: seq<CallDelta>,
                              after: seq<CallDelta>)
    requires forall o <- between :: o.index != Some(index)
    ensures MergedAll(calls, before + [WithArguments(index, id, kind, name, first + second)] + between + after)
         == MergedAll(calls,
                      before + [WithArguments(index, id, kind, name, first)] + between + [Rest(index, second)] + after)
  {
    var whole := WithArguments(index, id, kind, name, first + second);
    var head, rest := WithArguments(index, id, kind, name, first), Rest(index, second);
    var start := MergedAll(calls, before);
    MergedSplit(calls, before, whole, between, after);
    MergedConcat(calls, before + [head] + between + [rest], after);
    MergedLast(calls, before + [head] + between, rest);
    MergedSplit(calls, before, head, between, []);
    assert before + [head] + between + [] == before + [head] + between;
    assert MergedAll(MergedAll(Merged(start, head), between), []) == MergedAll(Merged(start, head), between);
    SplittingArguments(start, index, id, kind, name, first, second);
    assert index < |Merged(start, head)| || index >= MAX_TOOL_CALLS;
    hide Merged, MergedAll;
    RestMovesOver(Merged(start, head), index, second, between);
  }

  lemma MergedLast(calls: seq<ToolCall>, deltas: seq<CallDelta>, last: CallDelta)
    ensures MergedAll(calls, deltas + [last]) == Merged(MergedAll(calls, deltas), last)
  {
    assert (deltas + [last])[..|deltas|] == deltas;
  }

  lemma MergedSplit(calls: seq<ToolCall>, before: seq<CallDelta>, one: CallDelta, between: seq<CallDelta>,
                    after: seq<CallDelta>)
    ensures MergedAll(calls, before + [one] + between + after)
         == MergedAll(MergedAll(Merged(MergedAll(calls, before), one), between), after)
  {
    hide Merged, MergedAll;
    MergedConcat(calls, before + [one] + between, after);
    MergedConcat(calls, before + [one], between);
    MergedLast(calls, before, one);
  }
}
