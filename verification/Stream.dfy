/** Parsed chunks of a streamed response. */
module Stream {
  import opened Options
  import opened Transcript

  /** Empty strings stand for missing or falsy fields; `arguments` is absent when missing or null. */
  datatype FunctionDelta = FunctionDelta(name: string, arguments: Option<string>)

  datatype CallDelta = CallDelta(index: Option<int>, id: string, kind: string, body: Option<FunctionDelta>)

  datatype Field = Missing | Nothing | Str(text: string)

  /** `NoDelta` is a choice without a delta object; an `Unset` role is a missing or empty one. */
  datatype Delta = NoDelta | Delta(role: Role, content: Field, reasoning: Option<string>, calls: seq<CallDelta>)

  datatype ChunkChoice = ChunkChoice(index: int, finish: Option<string>, delta: Delta)

  type Chunk = seq<ChunkChoice>

  function ContentOf(raw: ChunkChoice): string {
    if raw.delta.Delta? && raw.delta.content.Str? then raw.delta.content.text else ""
  }

  function ReasoningOf(raw: ChunkChoice): string {
    if raw.delta.Delta? && raw.delta.reasoning.Some? then raw.delta.reasoning.value else ""
  }

  function Contents(raws: seq<ChunkChoice>): string {
    if raws == [] then "" else ContentOf(raws[0]) + Contents(raws[1..])
  }

  function Reasonings(raws: seq<ChunkChoice>): string {
    if raws == [] then "" else ReasoningOf(raws[0]) + Reasonings(raws[1..])
  }

  /** The parts of a chunk that belong to one choice, in order. */
  function PartsFor(chunk: Chunk, index: int): seq<ChunkChoice> {
    if chunk == [] then []
    else (if chunk[0].index == index then [chunk[0]] else []) + PartsFor(chunk[1..], index)
  }

  function StreamPartsFor(chunks: seq<Chunk>, index: int): seq<ChunkChoice> {
    if chunks == [] then [] else PartsFor(chunks[0], index) + StreamPartsFor(chunks[1..], index)
  }

  lemma {:induction false} TextsConcat(a: seq<ChunkChoice>, b: seq<ChunkChoice>)
    ensures Contents(a + b) == Contents(a) + Contents(b)
    ensures Reasonings(a + b) == Reasonings(a) + Reasonings(b)
  {
    if a == [] {
      assert a + b == b;
    } else {
      assert (a + b)[1..] == a[1..] + b;
      hide ContentOf, ReasoningOf;
      TextsConcat(a[1..], b);
    }
  }
}
