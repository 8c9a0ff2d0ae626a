/** Putting the recovery notice into a chunk. */
module Notice {
  import opened Collections
  import opened Stream
  import opened Resplitting
  import opened Display

  /** A choice that shows content or calls tools can carry the notice. */
  predicate CanCarry(raw: ChunkChoice) {
    raw.delta.Delta? && (raw.delta.content != Missing || raw.delta.calls != [])
  }

  function Carrying(raw: ChunkChoice, notice: string): ChunkChoice
    requires raw.delta.Delta?
  {
    raw.(delta := raw.delta.(content := Str(notice + ContentOf(raw))))
  }

  /** `inject_recovery_notice`: the first choice that can carry the notice gets it. */
  ghost function Injected(chunk: Chunk, notice: string): Chunk {
    if chunk == [] then []
    else if CanCarry(chunk[0]) then [Carrying(chunk[0], notice)] + chunk[1..]
    else [chunk[0]] + Injected(chunk[1..], notice)
  }

  ghost predicate SomeCanCarry(chunk: Chunk) {
    exists k :: 0 <= k < |chunk| && CanCarry(chunk[k])
  }

  lemma InjectedNext(chunk: Chunk, notice: string, k: nat)
    requires k < |chunk|
    ensures Injected(chunk[k..], notice)
         == if CanCarry(chunk[k]) then [Carrying(chunk[k], notice)] + chunk[k + 1..]
            else [chunk[k]] + Injected(chunk[k + 1..], notice)
  {
    hide Carrying, CanCarry;
    assert chunk[k..][0] == chunk[k] && chunk[k..][1..] == chunk[k + 1..];
  }

  /** The notice goes in front of what content part `k` has, and into no other part. */
  ghost predicate PutIn(chunk: Chunk, injected: Chunk, notice: string, k: int) {
    && |injected| == |chunk| && 0 <= k < |chunk| && chunk[k].delta.Delta?
    && (forall j :: 0 <= j < |chunk| && j != k ==> injected[j] == chunk[j])
    && injected[k].index == chunk[k].index && injected[k].finish == chunk[k].finish
    && injected[k].delta
       == Delta(chunk[k].delta.role,
                Str(notice + if chunk[k].delta.content.Str? then chunk[k].delta.content.text else ""),
                chunk[k].delta.reasoning, chunk[k].delta.calls)
  }

  /** A part with a content field, though it be null, or with tool calls. */
  ghost predicate ShowsOrCalls(chunk: Chunk, k: int) {
    && 0 <= k < |chunk| && chunk[k].delta.Delta?
    && (chunk[k].delta.content.Str? || chunk[k].delta.content.Nothing? || |chunk[k].delta.calls| > 0)
  }

  ghost predicate IsFirstPart(chunk: Chunk, k: int) {
    ShowsOrCalls(chunk, k) && forall j :: 0 <= j < k ==> !ShowsOrCalls(chunk, j)
  }

  lemma CanCarryExactly(chunk: Chunk, k: nat)
    requires k < |chunk|
    ensures CanCarry(chunk[k]) <==> ShowsOrCalls(chunk, k)
  {
  }

  lemma PutInHere(chunk: Chunk, notice: string, k: nat)
    requires k < |chunk| && CanCarry(chunk[k])
    ensures PutIn(chunk, chunk[..k] + ([Carrying(chunk[k], notice)] + chunk[k + 1..]), notice, k)
  {
  }

  method InjectRecoveryNotice(chunk: Chunk, notice: string) returns (injected: Chunk, done: bool)
    ensures injected == Injected(chunk, notice)
    ensures done <==> SomeCanCarry(chunk)
    // The first part that shows content or calls tools gets it; without one nothing happens.
    ensures done <==> exists k :: ShowsOrCalls(chunk, k)
    ensures done ==> exists k :: IsFirstPart(chunk, k) && PutIn(chunk, injected, notice, k)
    ensures !done ==> injected == chunk
  {
    hide Injected, Carrying, PutIn, ShowsOrCalls;
    forall j | 0 <= j < |chunk| ensures CanCarry(chunk[j]) <==> ShowsOrCalls(chunk, j) { CanCarryExactly(chunk, j); }
    OnlyParts(chunk);
    var k := 0;
    assert chunk[0..] == chunk;
    while k < |chunk|
      invariant 0 <= k <= |chunk|
      invariant forall j :: 0 <= j < k ==> !CanCarry(chunk[j])
      invariant Injected(chunk, notice) == chunk[..k] + Injected(chunk[k..], notice)
    {
      InjectedNext(chunk, notice, k);
      if CanCarry(chunk[k]) {
        injected := chunk[..k] + ([Carrying(chunk[k], notice)] + chunk[k + 1..]);
        PutInHere(chunk, notice, k);
        return injected, true;
      }
      Associates(chunk[..k], [chunk[k]], Injected(chunk[k + 1..], notice));
      assert chunk[..k + 1] == chunk[..k] + [chunk[k]];
      k := k + 1;
    }
    NothingToInject(notice);
    assert chunk[|chunk|..] == [];
    return chunk, false;
  }

  lemma OnlyParts(chunk: Chunk)
    ensures forall j :: ShowsOrCalls(chunk, j) ==> 0 <= j < |chunk|
  {
  }

  lemma NothingToInject(notice: string)
    ensures Injected([], notice) == []
  {
  }

  lemma {:induction false} CannotCarry(chunk: Chunk, notice: string, index: int)
    requires !SomeCanCarry(chunk)
    ensures Injected(chunk, notice) == chunk && TextFor(chunk, index) == ""
    decreases |chunk|
  {
    if chunk != [] {
      var raw, rest := chunk[0], chunk[1..];
      assert !CanCarry(raw) && chunk == [raw] + rest;
      assert forall k :: 0 <= k < |rest| ==> rest[k] == chunk[k + 1];
      CannotCarry(rest, notice, index);
      TextForCons(raw, rest, index);
    }
  }

  lemma TextForCons(raw: ChunkChoice, rest: Chunk, index: int)
    ensures TextFor([raw] + rest, index) == (if raw.index == index then ContentOf(raw) else "") + TextFor(rest, index)
  {
    PartsForCons(raw, rest, index);
    ContentsCons(raw, PartsFor(rest, index));
  }

  // ---------------------------------------------------------------- one part of one choice

  /** The choice of the chunk that gets the notice. */
  ghost function Carrier(chunk: Chunk): int
    requires SomeCanCarry(chunk)
  {
    if CanCarry(chunk[0]) then chunk[0].index
    else
      var k :| 0 <= k < |chunk| && CanCarry(chunk[k]);
      assert chunk[1..][k - 1] == chunk[k];
      Carrier(chunk[1..])
  }

  /** What comes behind the part that gets the notice. */
  ghost function Behind(chunk: Chunk): Chunk
    requires SomeCanCarry(chunk)
  {
    if CanCarry(chunk[0]) then chunk[1..]
    else
      var k :| 0 <= k < |chunk| && CanCarry(chunk[k]);
      assert chunk[1..][k - 1] == chunk[k];
      Behind(chunk[1..])
  }

  /** `carried` is `raws` with the notice in front of the content of part `k`. */
  ghost predicate CarriedAt(raws: seq<ChunkChoice>, carried: seq<ChunkChoice>, notice: string, k: int) {
    0 <= k < |raws| && raws[k].delta.Delta? && carried == raws[k := Carrying(raws[k], notice)]
  }

  lemma CarriedBehind(before: seq<ChunkChoice>, raws: seq<ChunkChoice>, carried: seq<ChunkChoice>, notice: string,
                      k: int)
    requires CarriedAt(raws, carried, notice, k)
    ensures 0 <= k < |raws| && CarriedAt(before + raws, before + carried, notice, |before| + k)
    ensures (before + raws)[..|before| + k] == before + raws[..k]
      && (before + raws)[|before| + k + 1..] == raws[k + 1..]
  {
  }

  lemma CarriedBefore(raws: seq<ChunkChoice>, after: seq<ChunkChoice>, carried: seq<ChunkChoice>, notice: string,
                      k: int)
    requires CarriedAt(raws, carried, notice, k)
    ensures 0 <= k < |raws| && CarriedAt(raws + after, carried + after, notice, k)
    ensures (raws + after)[..k] == raws[..k] && (raws + after)[k + 1..] == raws[k + 1..] + after
  {
  }

  /** The parts of the carrying choice change in one place, no content before it; those of the others do not change. */
  lemma {:induction false} InjectedParts(chunk: Chunk, notice: string, index: int) returns (k: int)
    requires SomeCanCarry(chunk)
    ensures if index == Carrier(chunk)
      then CarriedAt(PartsFor(chunk, index), PartsFor(Injected(chunk, notice), index), notice, k)
           && 0 <= k < |PartsFor(chunk, index)| && Contents(PartsFor(chunk, index)[..k]) == ""
           && PartsFor(chunk, index)[k + 1..] == PartsFor(Behind(chunk), index)
      else PartsFor(Injected(chunk, notice), index) == PartsFor(chunk, index)
    decreases |chunk|
  {
    hide Carrying, ContentOf, CanCarry, CarriedAt, Contents, PartsFor;
    var raw, rest := chunk[0], chunk[1..];
    assert chunk == [raw] + rest;
    if CanCarry(raw) {
      k := 0;
      CarrierIsHere(raw, rest, notice, index);
    } else {
      SomeLaterCanCarry(chunk);
      k := InjectedParts(rest, notice, index);
      CarrierIsLater(raw, rest, notice, index);
      var parts := PartsFor(rest, index);
      if raw.index != index {
        assert [] + parts == parts
          && [] + PartsFor(Injected(rest, notice), index) == PartsFor(Injected(rest, notice), index);
      } else if index == Carrier(rest) {
        CarriedBehind([raw], parts, PartsFor(Injected(rest, notice), index), notice, k);
        ContentsCons(raw, parts[..k]);
        k := 1 + k;
      }
    }
  }

  lemma SomeLaterCanCarry(chunk: Chunk)
    requires SomeCanCarry(chunk) && !CanCarry(chunk[0])
    ensures SomeCanCarry(chunk[1..]) && Carrier(chunk) == Carrier(chunk[1..]) && Behind(chunk) == Behind(chunk[1..])
    ensures ContentOf(chunk[0]) == ""
  {
    var k :| 0 <= k < |chunk| && CanCarry(chunk[k]);
    assert chunk[1..][k - 1] == chunk[k];
  }

  lemma CarrierIsHere(raw: ChunkChoice, rest: Chunk, notice: string, index: int)
    requires CanCarry(raw)
    ensures SomeCanCarry([raw] + rest) && Carrier([raw] + rest) == raw.index && Behind([raw] + rest) == rest
    ensures var chunk := [raw] + rest;
      if raw.index == index
      then CarriedAt(PartsFor(chunk, index), PartsFor(Injected(chunk, notice), index), notice, 0)
           && |PartsFor(chunk, index)| > 0 && Contents(PartsFor(chunk, index)[..0]) == ""
           && PartsFor(chunk, index)[1..] == PartsFor(Behind(chunk), index)
      else PartsFor(Injected(chunk, notice), index) == PartsFor(chunk, index)
  {
    HeadInjected(raw, rest, notice);
    hide CanCarry, Carrying, Injected, PartsFor, ContentOf;
    var next := Carrying(raw, notice);
    PartsForCons(raw, rest, index);
    PartsForCons(next, rest, index);
    assert ([raw] + PartsFor(rest, index))[0 := next] == [next] + PartsFor(rest, index);
    assert ([raw] + PartsFor(rest, index))[1..] == PartsFor(rest, index);
  }

  lemma HeadInjected(raw: ChunkChoice, rest: Chunk, notice: string)
    requires CanCarry(raw)
    ensures var chunk := [raw] + rest;
      && SomeCanCarry(chunk) && Carrier(chunk) == raw.index && Behind(chunk) == rest
      && raw.delta.Delta? && Injected(chunk, notice) == [Carrying(raw, notice)] + rest
    ensures raw.delta.Delta? && Carrying(raw, notice).index == raw.index
  {
    var chunk := [raw] + rest;
    assert chunk[0] == raw && chunk[1..] == rest;
  }

  lemma CarrierIsLater(raw: ChunkChoice, rest: Chunk, notice: string, index: int)
    requires !CanCarry(raw)
    ensures PartsFor(Injected([raw] + rest, notice), index)
         == (if raw.index == index then [raw] else []) + PartsFor(Injected(rest, notice), index)
    ensures PartsFor([raw] + rest, index) == (if raw.index == index then [raw] else []) + PartsFor(rest, index)
  {
    var chunk := [raw] + rest;
    assert chunk[0] == raw && chunk[1..] == rest;
    PartsForCons(raw, Injected(rest, notice), index);
    PartsForCons(raw, rest, index);
  }

  // ---------------------------------------------------------------- what the parts say together

  /** Two runs of parts bring the same reasoning and the same calls. */
  ghost predicate SameBesidesContent(a: seq<ChunkChoice>, b: seq<ChunkChoice>) {
    Reasonings(a) == Reasonings(b) && CallsOf(a) == CallsOf(b) && (AnyReasoning(a) <==> AnyReasoning(b))
  }

  lemma SameBesidesContentConcat(a: seq<ChunkChoice>, b: seq<ChunkChoice>, c: seq<ChunkChoice>, d: seq<ChunkChoice>)
    requires SameBesidesContent(a, b) && SameBesidesContent(c, d)
    ensures SameBesidesContent(a + c, b + d)
  {
    hide Contents, Reasonings, CallsOf, AnyReasoning;
    TextsConcat(a, c);
    TextsConcat(b, d);
    SaysConcat(a, c);
    SaysConcat(b, d);
  }

  /** Parts that carry the notice say what they said, behind the notice. */
  lemma CarriedSays(raws: seq<ChunkChoice>, carried: seq<ChunkChoice>, notice: string, k: int)
    requires CarriedAt(raws, carried, notice, k)
    ensures SameBesidesContent(raws, carried)
    ensures Contents(raws) == Contents(raws[..k]) + Contents(raws[k..])
    ensures Contents(carried) == Contents(raws[..k]) + notice + Contents(raws[k..])
  {
    hide Contents, Reasonings, CallsOf, AnyReasoning, Carrying;
    var a, b := raws[..k], raws[k + 1..];
    var p, q := [raws[k]], [Carrying(raws[k], notice)];
    assert raws == a + (p + b) && carried == a + (q + b) && raws[k..] == p + b;
    CarryingSays(raws[k], notice);
    SameBesidesContentConcat(p, q, b, b);
    SameBesidesContentConcat(a, a, p + b, q + b);
    TextsConcat(a, p + b);
    TextsConcat(a, q + b);
    TextsConcat(p, b);
    TextsConcat(q, b);
    assert Contents(a) + ((notice + Contents(p)) + Contents(b)) == Contents(a) + notice + (Contents(p) + Contents(b));
  }

  lemma CarryingSays(raw: ChunkChoice, notice: string)
    requires raw.delta.Delta?
    ensures SameBesidesContent([raw], [Carrying(raw, notice)])
    ensures Contents([Carrying(raw, notice)]) == notice + Contents([raw])
  {
    var p, q := [raw], [Carrying(raw, notice)];
    assert p[1..] == [] && q[1..] == [] && p[..0] == [] && q[..0] == [];
  }
}
