/** Merging the deltas of a streamed response. */
module Deltas {
  import opened Options
  import opened Transcript
  import opened Stream

  const MAX_CONTENT_LENGTH: nat := 500_000
  const MAX_TOOL_CALLS: nat := 100

  datatype StreamingChoice = StreamingChoice(
    role: Role,
    content: string,
    reasoning: string,
    hasReasoning: bool,
    calls: seq<ToolCall>,
    finish: Option<string>)

  const EMPTY_CHOICE := StreamingChoice(Assistant, "", "", false, [], None)

  function ToMessage(choice: StreamingChoice): Message {
    Message(choice.role, Some(Text(choice.content)), None, None, choice.calls,
            if choice.hasReasoning then Thought(choice.reasoning) else Absent, None)
  }

  // ---------------------------------------------------------------- merging one delta

  /** Parts are taken while the text so far is below the limit. */
  function Appended(text: string, part: string): string {
    if |text| < MAX_CONTENT_LENGTH then text + part else text
  }

  const EMPTY_CALL := ToolCall("", "function", "", Raw(""))

  /** Where a call delta goes: its index, or the end when it has none. */
  function CallIndex(count: nat, delta: CallDelta): nat {
    if delta.index.Some? && delta.index.value >= 0 then delta.index.value else count
  }

  function Padded(calls: seq<ToolCall>, length: nat): seq<ToolCall> {
    if |calls| >= length then calls else calls + seq(length - |calls|, _ => EMPTY_CALL)
  }

  lemma PaddedByOne(calls: seq<ToolCall>, length: nat)
    requires |calls| < length
    ensures Padded(calls + [EMPTY_CALL], length) == Padded(calls, length)
  {
  }

  lemma PaddedEnough(calls: seq<ToolCall>, length: nat)
    requires length <= |calls|
    ensures Padded(calls, length) == calls
  {
  }

  function MergedCall(call: ToolCall, delta: CallDelta): ToolCall {
    var identified := call.(
      id := if delta.id != "" then delta.id else call.id,
      kind := if delta.kind != "" then delta.kind else call.kind);
    match delta.body
    case None => identified
    case Some(body) =>
      var named := if body.name != "" then identified.(name := body.name) else identified;
      if body.arguments.Some?
      then named.(arguments := Raw(ArgumentText(call.arguments) + body.arguments.value))
      else named
  }

  function Merged(calls: seq<ToolCall>, delta: CallDelta): seq<ToolCall> {
    var index := CallIndex(|calls|, delta);
    if index >= MAX_TOOL_CALLS then calls
    else
      var padded := Padded(calls, index + 1);
      padded[index := MergedCall(padded[index], delta)]
  }

  /** A call after a delta: what the delta brings replaces, and its arguments are added. */
  ghost predicate CallAfter(after: ToolCall, before: ToolCall, delta: CallDelta) {
    && after.id == (if delta.id != "" then delta.id else before.id)
    && after.kind == (if delta.kind != "" then delta.kind else before.kind)
    && after.name == (if delta.body.Some? && delta.body.value.name != "" then delta.body.value.name else before.name)
    && after.arguments
       == if delta.body.Some? && delta.body.value.arguments.Some?
          then Raw((match before.arguments { case Raw(text) => text case Structured(rendered) => rendered })
                   + delta.body.value.arguments.value)
          else before.arguments
  }

  /** Where a delta goes: to the call of its index, with empty calls up to it; without an index, or with a negative
      one, to a new call; beyond a hundred calls nowhere. No other call changes. */
  lemma MergedExactly(calls: seq<ToolCall>, delta: CallDelta)
    ensures var after := Merged(calls, delta);
      var i := if delta.index.Some? && delta.index.value >= 0 then delta.index.value else |calls|;
      if i >= 100 then after == calls
      else
        && |after| == (if i < |calls| then |calls| else i + 1)
        && CallAfter(after[i], if i < |calls| then calls[i] else ToolCall("", "function", "", Raw("")), delta)
        && forall j :: 0 <= j < |after| && j != i ==>
             after[j] == if j < |calls| then calls[j] else ToolCall("", "function", "", Raw(""))
  {
  }

  function MergedAll(calls: seq<ToolCall>, deltas: seq<CallDelta>): seq<ToolCall> {
    if deltas == [] then calls else Merged(MergedAll(calls, deltas[..|deltas| - 1]), deltas[|deltas| - 1])
  }

  function Absorbed(choice: StreamingChoice, raw: ChunkChoice): StreamingChoice {
    var ended := if raw.finish.Some? then choice.(finish := raw.finish) else choice;
    match raw.delta
    case NoDelta => ended
    case Delta(role, content, reasoning, calls) =>
      ended.(
        role := if role != Unset then role else ended.role,
        content := if content.Str? then Appended(ended.content, content.text) else ended.content,
        hasReasoning := ended.hasReasoning || reasoning.Some?,
        reasoning := if reasoning.Some? then Appended(ended.reasoning, reasoning.value) else ended.reasoning,
        calls := MergedAll(ended.calls, calls))
  }

  function AbsorbedAll(choice: StreamingChoice, raws: seq<ChunkChoice>): StreamingChoice {
    if raws == [] then choice else Absorbed(AbsorbedAll(choice, raws[..|raws| - 1]), raws[|raws| - 1])
  }

  // ---------------------------------------------------------------- what merging guarantees

  /** Text is always a prefix of what was sent, and all of it while it is below the limit. */
  lemma {:induction false} TextIsAPrefix(raws: seq<ChunkChoice>)
    ensures var choice := AbsorbedAll(EMPTY_CHOICE, raws);
      && choice.content <= Contents(raws)
      && (|choice.content| < 500_000 ==> choice.content == Contents(raws))
      && choice.reasoning <= Reasonings(raws)
      && (|choice.reasoning| < 500_000 ==> choice.reasoning == Reasonings(raws))
  {
    if raws != [] {
      var front, last := raws[..|raws| - 1], raws[|raws| - 1];
      TextIsAPrefix(front);
      TextsLast(front, last);
      assert raws == front + [last];
      var before := AbsorbedAll(EMPTY_CHOICE, front);
      AbsorbedTexts(before, last);
      AppendedIsPrefix(before.content, Contents(front), ContentOf(last));
      AppendedIsPrefix(before.reasoning, Reasonings(front), ReasoningOf(last));
      hide Absorbed, Appended, Contents, Reasonings, ContentOf, ReasoningOf;
    }
  }

  lemma AbsorbedTexts(choice: StreamingChoice, raw: ChunkChoice)
    ensures Absorbed(choice, raw).content == Appended(choice.content, ContentOf(raw))
    ensures Absorbed(choice, raw).reasoning == Appended(choice.reasoning, ReasoningOf(raw))
  {
    hide MergedAll;
    assert choice.content + "" == choice.content && choice.reasoning + "" == choice.reasoning;
  }

  lemma AppendedIsPrefix(text: string, whole: string, part: string)
    requires text <= whole && (|text| < MAX_CONTENT_LENGTH ==> text == whole)
    ensures Appended(text, part) <= whole + part
    ensures |Appended(text, part)| < MAX_CONTENT_LENGTH ==> Appended(text, part) == whole + part
  {
  }

  lemma {:induction false} TextsLast(front: seq<ChunkChoice>, last: ChunkChoice)
    ensures Contents(front + [last]) == Contents(front) + ContentOf(last)
    ensures Reasonings(front + [last]) == Reasonings(front) + ReasoningOf(last)
  {
    if front == [] {
      assert [last][1..] == [] && front + [last] == [last];
    } else {
      assert (front + [last])[1..] == front[1..] + [last];
      TextsLast(front[1..], last);
    }
  }

  lemma {:induction false} AtMostMaxToolCalls(calls: seq<ToolCall>, deltas: seq<CallDelta>)
    requires |calls| <= MAX_TOOL_CALLS
    ensures |calls| <= |MergedAll(calls, deltas)| <= MAX_TOOL_CALLS
  {
    if deltas != [] { AtMostMaxToolCalls(calls, deltas[..|deltas| - 1]); }
  }

  /** How many calls there are after the deltas, of `count` before them. */
  function CallCount(count: nat, deltas: seq<CallDelta>): nat {
    if deltas == [] then count
    else
      var before := CallCount(count, deltas[..|deltas| - 1]);
      var index := CallIndex(before, deltas[|deltas| - 1]);
      if before <= index < MAX_TOOL_CALLS then index + 1 else before
  }

  lemma {:induction false} CallsAreCounted(calls: seq<ToolCall>, deltas: seq<CallDelta>)
    ensures |MergedAll(calls, deltas)| == CallCount(|calls|, deltas)
  {
    if deltas != [] {
      hide MergedCall;
      CallsAreCounted(calls, deltas[..|deltas| - 1]);
    }
  }

  /** Where the last of the deltas goes. */
  function LastIndex(count: nat, deltas: seq<CallDelta>): nat
    requires deltas != []
  {
    CallIndex(CallCount(count, deltas[..|deltas| - 1]), deltas[|deltas| - 1])
  }

  function Fragment(delta: CallDelta): string {
    if delta.body.Some? && delta.body.value.arguments.Some? then delta.body.value.arguments.value else ""
  }

  /** The argument fragments applied to call `i`, in order of arrival. */
  function FragmentsFor(count: nat, deltas: seq<CallDelta>, i: nat): string {
    if deltas == [] then ""
    else
      FragmentsFor(count, deltas[..|deltas| - 1], i)
      + if LastIndex(count, deltas) == i then Fragment(deltas[|deltas| - 1]) else ""
  }

  function ArgumentsAt(calls: seq<ToolCall>, i: nat): string {
    if i < |calls| then ArgumentText(calls[i].arguments) else ""
  }

  /** Each call's arguments are what it had, followed by the fragments applied to its index. */
  lemma {:induction false} ArgumentsAreInOrder(calls: seq<ToolCall>, deltas: seq<CallDelta>, i: nat)
    requires i < MAX_TOOL_CALLS
    ensures ArgumentsAt(MergedAll(calls, deltas), i) == ArgumentsAt(calls, i) + FragmentsFor(|calls|, deltas, i)
  {
    if deltas != [] {
      CallsAreCounted(calls, deltas[..|deltas| - 1]);
      ArgumentsAreInOrder(calls, deltas[..|deltas| - 1], i);
    }
  }

  // ---------------------------------------------------------------- chunks and streams

  function ChoiceAt(choices: map<int, StreamingChoice>, index: int): StreamingChoice {
    if index in choices then choices[index] else EMPTY_CHOICE
  }

  ghost function Ingested(choices: map<int, StreamingChoice>, chunk: Chunk): map<int, StreamingChoice> {
    if chunk == [] then choices
    else
      var earlier, last := Ingested(choices, chunk[..|chunk| - 1]), chunk[|chunk| - 1];
      earlier[last.index := Absorbed(ChoiceAt(earlier, last.index), last)]
  }

  ghost function IngestedStream(choices: map<int, StreamingChoice>, chunks: seq<Chunk>): map<int, StreamingChoice>
    decreases |chunks|
  {
    if chunks == [] then choices else IngestedStream(Ingested(choices, chunks[0]), chunks[1..])
  }

  lemma {:induction false} AbsorbedConcat(choice: StreamingChoice, a: seq<ChunkChoice>, b: seq<ChunkChoice>)
    ensures AbsorbedAll(choice, a + b) == AbsorbedAll(AbsorbedAll(choice, a), b)
  {
    if b == [] {
      assert a + b == a;
    } else {
      assert (a + b)[..|a + b| - 1] == a + b[..|b| - 1];
      hide Absorbed;
      AbsorbedConcat(choice, a, b[..|b| - 1]);
    }
  }

  lemma {:induction false} PartsForLast(chunk: Chunk, raw: ChunkChoice, index: int)
    ensures PartsFor(chunk + [raw], index) == PartsFor(chunk, index) + if raw.index == index then [raw] else []
  {
    if chunk == [] {
      assert [raw][1..] == [] && chunk + [raw] == [raw];
    } else {
      assert (chunk + [raw])[1..] == chunk[1..] + [raw];
      PartsForLast(chunk[1..], raw, index);
      var first, last := if chunk[0].index == index then [chunk[0]] else [], if raw.index == index then [raw] else [];
      var rest := PartsFor(chunk[1..], index);
      assert PartsFor(chunk, index) == first + rest;
      assert PartsFor(chunk + [raw], index) == first + (rest + last);
      hide PartsFor;
      assert first + (rest + last) == (first + rest) + last;
    }
  }

  lemma {:induction false} ChunkGoesToItsChoices(choices: map<int, StreamingChoice>, chunk: Chunk, index: int)
    ensures ChoiceAt(Ingested(choices, chunk), index) == AbsorbedAll(ChoiceAt(choices, index), PartsFor(chunk, index))
  {
    if chunk != [] {
      var front, last := chunk[..|chunk| - 1], chunk[|chunk| - 1];
      assert chunk == front + [last];
      hide Absorbed, PartsFor;
      ChunkGoesToItsChoices(choices, front, index);
      PartsForLast(front, last, index);
      AbsorbedConcat(ChoiceAt(choices, index), PartsFor(front, index), [last]);
      assert [last][..0] == [];
      assert PartsFor(front, index) + [] == PartsFor(front, index);
    }
  }

  /** In any interleaving, a choice accumulates its own parts and nothing else. */
  lemma {:induction false} ChoicesDoNotMix(choices: map<int, StreamingChoice>, chunks: seq<Chunk>, index: int)
    ensures ChoiceAt(IngestedStream(choices, chunks), index)
         == AbsorbedAll(ChoiceAt(choices, index), StreamPartsFor(chunks, index))
    decreases |chunks|
  {
    if chunks != [] {
      hide Ingested, Absorbed, AbsorbedAll, PartsFor, ChoiceAt;
      ChunkGoesToItsChoices(choices, chunks[0], index);
      ChoicesDoNotMix(Ingested(choices, chunks[0]), chunks[1..], index);
      AbsorbedConcat(ChoiceAt(choices, index), PartsFor(chunks[0], index), StreamPartsFor(chunks[1..], index));
    } else {
      assert AbsorbedAll(ChoiceAt(choices, index), []) == ChoiceAt(choices, index);
    }
  }

  /** Reasoning or tool calls arrived: there may be something new to store. */
  predicate IsStoreable(raw: ChunkChoice) {
    raw.delta.Delta? && (raw.delta.reasoning.Some? || raw.delta.calls != [])
  }
}
