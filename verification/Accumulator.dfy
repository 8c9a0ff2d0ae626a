/** The accumulator of a streamed response: merges the deltas and hands reasoning to the store. */
module Accumulator {
  import opened Options
  import opened Transcript
  import opened Keys
  import opened ReasoningCache
  import opened Prepare
  import opened Response
  import opened Stream
  import opened Deltas
  import opened Staging

  /** The order of insertion names every choice once. */
  ghost predicate Lists(order: seq<int>, choices: map<int, StreamingChoice>) {
    && (forall i :: i in order <==> i in choices)
    && forall i, j :: 0 <= i < j < |order| ==> order[i] != order[j]
  }

  lemma ListedOnce(order: seq<int>, choices: map<int, StreamingChoice>)
    requires Lists(order, choices)
    ensures forall i <- order :: i in choices
  {
  }

  lemma FiledFields(buffer: Buffer, entry: Pending, stage: Stage)
    ensures Filed(buffer, entry, stage)
         == Buffer(buffer.stages[entry.key := stage], Upsert(buffer.pending, entry), buffer.filed[entry.key := entry],
                   buffer.log + [Queueing(entry.key, stage)])
  {
  }

  class StreamAccumulator {
    var choices: map<int, StreamingChoice>
    var order: seq<int>
    var stages: map<StorageKey, Stage>
    var pending: seq<Pending>
    var dirty: bool
    ghost var filed: map<StorageKey, Pending>
    ghost var log: seq<Queueing>
    ghost var late: set<int>
    ghost var flushed: seq<Pending>

    ghost function Books(): Buffer
      reads this
    {
      Buffer(stages, pending, filed, log)
    }

    ghost predicate Valid()
      reads this
    {
      && Lists(order, choices)
      && RisingStages(stages, log)
      && InOrder(Books(), choices, late)
      && NothingLost(filed, pending, flushed)
    }

    /** Everything was filed for one of the contexts. */
    ghost predicate FiledFor(contexts: seq<Context>, namespace: Namespace)
      reads this
    {
      FiledUnder(filed, contexts, namespace)
    }

    /** Whatever was queued for the contexts is still pending or in the cache. */
    ghost predicate Keeps(cache: Cache, contexts: seq<Context>, namespace: Namespace)
      reads this
    {
      Accounted(cache, Books(), contexts, namespace)
    }

    constructor ()
      ensures Valid() && choices == map[] && stages == map[] && pending == [] && !dirty
      ensures Books() == EMPTY_BUFFER && late == {} && flushed == []
    {
      choices, order, stages, pending, dirty := map[], [], map[], [], false;
      filed, log, late, flushed := map[], [], {}, [];
    }

    lemma NothingFiledYet(contexts: seq<Context>, namespace: Namespace)
      requires Books() == EMPTY_BUFFER
      ensures Uniform(contexts) && FiledFor(contexts, namespace) && forall cache :: Keeps(cache, contexts, namespace)
    {
    }

    lemma LogIsBounded()
      requires Valid()
      ensures QueuedAtMostTwice(log)
    {
    }

    method MergeToolCallDeltas(calls: seq<ToolCall>, deltas: seq<CallDelta>) returns (merged: seq<ToolCall>)
      ensures merged == MergedAll(calls, deltas)
    {
      hide MergedCall, Padded, CallIndex;
      merged := calls;
      for k := 0 to |deltas|
        invariant merged == MergedAll(calls, deltas[..k])
      {
        assert deltas[..k + 1][..k] == deltas[..k];
        var index := CallIndex(|merged|, deltas[k]);
        if index < MAX_TOOL_CALLS {
          ghost var before := merged;
          while |merged| <= index
            invariant Padded(merged, index + 1) == Padded(before, index + 1)
          {
            PaddedByOne(merged, index + 1);
            merged := merged + [EMPTY_CALL];
          }
          PaddedEnough(merged, index + 1);
          merged := merged[index := MergedCall(merged[index], deltas[k])];
        }
      }
      assert deltas[..|deltas|] == deltas;
    }

    /** One choice of a chunk: its finish, role, texts and tool calls; says whether it brought something storeable. */
    method Absorb(was: StreamingChoice, raw: ChunkChoice) returns (choice: StreamingChoice, storeable: bool)
      ensures choice == Absorbed(was, raw)
      ensures storeable <==> IsStoreable(raw)
    {
      hide MergedAll, Appended;
      choice, storeable := was, false;
      if raw.finish.Some? { choice := choice.(finish := raw.finish); }
      if raw.delta.NoDelta? { return; }
      if raw.delta.role != Unset { choice := choice.(role := raw.delta.role); }
      if raw.delta.content.Str? { choice := choice.(content := Appended(choice.content, raw.delta.content.text)); }
      if raw.delta.reasoning.Some? {
        choice := choice.(hasReasoning := true, reasoning := Appended(choice.reasoning, raw.delta.reasoning.value));
        storeable := true;
      }
      if raw.delta.calls != [] { storeable := true; }
      var merged := MergeToolCallDeltas(choice.calls, raw.delta.calls);
      choice := choice.(calls := merged);
    }

    method IngestPart(raw: ChunkChoice)
      requires Valid()
      modifies this`choices, this`order, this`dirty, this`late
      ensures Valid()
      ensures late == LateAfter(old(late), stages, [raw])
      ensures choices == old(choices)[raw.index := Absorbed(ChoiceAt(old(choices), raw.index), raw)]
      ensures old(order) <= order
      ensures dirty <==> old(dirty) || IsStoreable(raw)
    {
      LateStaysInOrder(Books(), choices, late, raw,
                       Absorbed(ChoiceAt(choices, raw.index), raw));
      hide RisingStages, Absorbed, IsStoreable, InOrder, LateAfter;
      var choice, storeable := Absorb(ChoiceAt(choices, raw.index), raw);
      if raw.index !in choices { order := order + [raw.index]; }
      choices := choices[raw.index := choice];
      if storeable { dirty := true; }
      late := LateAfter(late, stages, [raw]);
    }

    method IngestChunk(chunk: Chunk)
      requires Valid()
      modifies this`choices, this`order, this`dirty, this`late
      ensures Valid()
      ensures choices == Ingested(old(choices), chunk)
      ensures late == LateAfter(old(late), stages, chunk)
      ensures old(order) <= order
      ensures dirty <==> old(dirty) || exists raw <- chunk :: IsStoreable(raw)
    {
      for k := 0 to |chunk|
        invariant Valid() && old(order) <= order
        invariant choices == Ingested(old(choices), chunk[..k])
        invariant late == LateAfter(old(late), stages, chunk[..k])
        invariant dirty <==> old(dirty) || exists raw <- chunk[..k] :: IsStoreable(raw)
      {
        assert chunk[..k + 1] == chunk[..k] + [chunk[k]] && chunk[..k + 1][..k] == chunk[..k];
        LateAfterNext(old(late), stages, chunk, k);
        hide Absorbed, IsStoreable, LateAfter, RisingStages, InOrder;
        IngestPart(chunk[k]);
      }
      assert chunk[..|chunk|] == chunk;
    }

    /** `_store_choice`: at most one queueing, logged. */
    method QueueChoice(index: int, mode: Mode, context: Context, namespace: Namespace) returns (queued: nat)
      requires Valid() && index in choices
      modifies this`stages, this`pending, this`filed, this`log
      ensures Valid()
      ensures forall cache, contexts ::
        context in contexts && old(Keeps(cache, contexts, namespace)) ==> Keeps(cache, contexts, namespace)
      ensures forall contexts :: context in contexts && old(FiledFor(contexts, namespace)) ==>
        FiledFor(contexts, namespace)
      ensures Books() == Queued(old(Books()), index, choices[index], mode, context, namespace)
      ensures if queued == 0 then log == old(log)
        else queued == 1 && WantedStage(mode, choices[index]).Some?
             && log == old(log) + [Queueing((index, context.scope), WantedStage(mode, choices[index]).value)]
    {
      hide Lists, Queued, Filed, Upsert, ToMessage, WantedStage, RisingStages, InOrder, Accounted, StageOf, EntryFor,
        NothingLost, FiledUnder;
      ghost var before := Books();
      QueuedStaysInOrder(before, index, choices, late, mode, context, namespace, flushed);
      QueuedCases(before, index, choices[index], mode, context, namespace);
      var entry, wanted := EntryFor(index, choices[index], context, namespace), WantedStage(mode, choices[index]);
      if Rank(StageOf(stages, entry.key)) >= Rank(wanted) { return 0; }
      StageRises(stages, log, entry.key, wanted.value);
      FiledFields(before, entry, wanted.value);
      pending := Upsert(pending, entry);
      stages := stages[entry.key := wanted.value];
      filed := filed[entry.key := entry];
      log := log + [Queueing(entry.key, wanted.value)];
      return 1;
    }

    /** The loop shared by the three store operations. */
    method QueueChoices(mode: Mode, context: Context, namespace: Namespace) returns (queued: nat)
      requires Valid()
      modifies this`stages, this`pending, this`filed, this`log
      ensures Valid()
      ensures forall cache, contexts ::
        context in contexts && old(Keeps(cache, contexts, namespace)) ==> Keeps(cache, contexts, namespace)
      ensures forall contexts :: context in contexts && old(FiledFor(contexts, namespace)) ==>
        FiledFor(contexts, namespace)
      ensures Books() == QueuedAll(old(Books()), order, choices, mode, context, namespace)
      ensures old(log) <= log && queued == |log| - |old(log)|
    {
      hide Lists, Queued, RisingStages, InOrder, Accounted, NothingLost, FiledUnder;
      queued := 0;
      ListedOnce(order, choices);
      for k := 0 to |order|
        invariant Valid()
        invariant forall cache, contexts ::
          context in contexts && old(Keeps(cache, contexts, namespace)) ==> Keeps(cache, contexts, namespace)
        invariant forall contexts :: context in contexts && old(FiledFor(contexts, namespace)) ==>
          FiledFor(contexts, namespace)
        invariant forall i <- order[..k] :: i in choices
        invariant Books() == QueuedAll(old(Books()), order[..k], choices, mode, context, namespace)
        invariant old(log) <= log && queued == |log| - |old(log)|
      {
        assert order[..k + 1][..k] == order[..k] && order[k] in order;
        var n := QueueChoice(order[k], mode, context, namespace);
        queued := queued + n;
      }
      assert order[..|order|] == order;
    }

    /** `store_reasoning`: every choice becomes final under the scope. */
    method StoreReasoning(context: Context, namespace: Namespace) returns (queued: nat)
      requires Valid()
      modifies this`stages, this`pending, this`filed, this`log
      ensures Valid()
      ensures forall cache, contexts ::
        context in contexts && old(Keeps(cache, contexts, namespace)) ==> Keeps(cache, contexts, namespace)
      ensures forall contexts :: context in contexts && old(FiledFor(contexts, namespace)) ==>
        FiledFor(contexts, namespace)
      ensures Books() == QueuedAll(old(Books()), order, choices, EveryChoice, context, namespace)
      ensures old(log) <= log && queued == |log| - |old(log)|
      ensures forall i :: i in choices ==> StageOf(stages, (i, context.scope)) == Some(FinalStage)
      ensures forall key: StorageKey :: key.1 != context.scope ==> StageOf(stages, key) == StageOf(old(stages), key)
    {
      hide QueuedAll, StageOf, RisingStages, InOrder, Accounted, NothingLost, FiledUnder;
      ListedOnce(order, choices);
      queued := QueueChoices(EveryChoice, context, namespace);
      EveryChoiceBecomesFinal(old(Books()), order, choices, context, namespace);
    }

    method StoreFinishedReasoning(context: Context, namespace: Namespace) returns (queued: nat)
      requires Valid()
      modifies this`stages, this`pending, this`filed, this`log
      ensures Valid()
      ensures Books() == QueuedAll(old(Books()), order, choices, FinishedChoices, context, namespace)
      ensures forall i :: i in choices ==>
        StageOf(stages, (i, context.scope))
        == if choices[i].finish.Some? then Some(FinalStage) else StageOf(old(stages), (i, context.scope))
      ensures old(log) <= log && queued == |log| - |old(log)|
    {
      hide QueuedAll, StageOf, RisingStages, InOrder, Accounted, NothingLost, FiledUnder;
      ListedOnce(order, choices);
      queued := QueueChoices(FinishedChoices, context, namespace);
      FinishedBecomeFinal(old(Books()), order, choices, context, namespace);
    }

    /** `store_ready_reasoning`: nothing unless something storeable arrived; clears the flag when nothing was queued. */
    method StoreReadyReasoning(context: Context, namespace: Namespace) returns (queued: nat)
      requires Valid()
      modifies this`stages, this`pending, this`filed, this`log, this`dirty
      ensures Valid()
      ensures !old(dirty) ==> queued == 0 && !dirty && Books() == old(Books())
      ensures forall cache, contexts ::
        context in contexts && old(Keeps(cache, contexts, namespace)) ==> Keeps(cache, contexts, namespace)
      ensures forall contexts :: context in contexts && old(FiledFor(contexts, namespace)) ==>
        FiledFor(contexts, namespace)
      ensures FinalMeansFinished(old(stages), choices) ==> FinalMeansFinished(stages, choices)
      ensures old(dirty) ==> Books() == QueuedAll(old(Books()), order, choices, ReadyChoices, context, namespace)
      ensures old(log) <= log && queued == |log| - |old(log)|
      ensures old(dirty) ==> (dirty <==> queued > 0)
    {
      if !dirty { return 0; }
      queued := QueueChoices(ReadyChoices, context, namespace);
      if FinalMeansFinished(old(stages), choices) {
        QueuedStaysFinished(old(Books()), order, choices, context, namespace);
      }
      if queued == 0 { dirty := false; }
    }

    /** The loop over what is pending. */
    method WritePending(store: ReasoningStore) returns (stored: nat, ghost writes: seq<Write>)
      modifies store`rows
      ensures Wrote(store.closed, old(store.rows), store.rows, writes, FlushedEntries(pending), store.limits)
      ensures store.Unlimited() ==> store.Contents() == Flushed(old(store.Contents()), pending)
      ensures stored == |FlushedEntries(pending)|
    {
      hide Stored, KeysStored, StoredEntries, Wrote, Visible;
      stored, writes := 0, [];
      WroteNothing(store.closed, store.rows, store.limits);
      for k := 0 to |pending|
        invariant Wrote(store.closed, old(store.rows), store.rows, writes, FlushedEntries(pending[..k]), store.limits)
        invariant store.Unlimited() ==> store.Contents() == Flushed(old(store.Contents()), pending[..k])
        invariant stored == |FlushedEntries(pending[..k])|
      {
        var p := pending[k];
        ghost var table := store.rows;
        FlushedNext(old(store.Contents()), pending, k);
        FlushedEntriesNext(pending, k);
        var n, more := store.StoreAssistantMessage(p.message, p.key.1, p.namespace, p.prior);
        WroteMore(store.closed, old(store.rows), table, store.rows, writes, more, FlushedEntries(pending[..k]),
                  StoredEntries(p.message, p.key.1, p.namespace, p.prior), store.limits);
        stored, writes := stored + n, writes + more;
      }
      assert pending[..|pending|] == pending;
    }

    /** Writes what is pending and forgets it; the flag falls if that stored anything. */
    method FlushPendingStore(store: ReasoningStore) returns (stored: nat, ghost writes: seq<Write>)
      requires Valid()
      modifies this`pending, this`dirty, this`flushed, store`rows
      ensures Valid() && pending == [] && flushed == old(flushed) + old(pending)
      ensures Wrote(store.closed, old(store.rows), store.rows, writes, FlushedEntries(old(pending)), store.limits)
      ensures store.Unlimited() ==> forall contexts, namespace ::
        old(Keeps(store.Contents(), contexts, namespace)) ==> Keeps(store.Contents(), contexts, namespace)
      ensures store.Unlimited() ==> store.Contents() == Flushed(old(store.Contents()), old(pending))
      ensures store.Unlimited() ==> old(store.Contents().Keys) <= store.Contents().Keys
      ensures stored == |FlushedEntries(old(pending))| && (dirty <==> old(dirty) && stored == 0)
    {
      hide RisingStages, InOrder, Accounted, Flushed, NothingLost, Wrote, FlushedEntries;
      AfterFlushing(store.Contents(), Books(), choices, late);
      FlushingLosesNothing(filed, pending, flushed);
      stored, writes := WritePending(store);
      flushed := flushed + pending;
      pending := [];
      if stored > 0 { dirty := false; }
    }

    // -------------------------------------------------------------- one chunk, and the end of the stream

    /** No two recording contexts have diverged: each choice is at one stage under all of them. */
    ghost predicate Uniform(contexts: seq<Context>)
      reads this
    {
      UniformStages(stages, contexts)
    }

    /** What the stream does with a chunk: the flag is shared by the contexts, yet they stay together. Once something
        storeable has come, finished choices are final and choices with all their tool calls are stored early;
        whatever reaches a stage is written at once. */
    method TakeChunk(chunk: Chunk, contexts: seq<Context>, namespace: Namespace, store: ReasoningStore)
      returns (ghost writes: seq<Write>)
      requires Valid() && Uniform(contexts) && DistinctScopes(contexts) && pending == []
      modifies this, store`rows
      ensures Valid() && Uniform(contexts) && pending == []
      ensures choices == Ingested(old(choices), chunk)
      ensures old(FinalMeansFinished(stages, choices)) ==>
        FinalMeansFinished(stages, choices) && late <= old(late) + Reopened(old(choices), chunk)
      ensures old(log) <= log
      ensures old(FiledFor(contexts, namespace)) ==> FiledFor(contexts, namespace)
      ensures store.Unlimited() && old(Keeps(store.Contents(), contexts, namespace)) ==>
        Keeps(store.Contents(), contexts, namespace)
      ensures store.Unlimited() ==> old(store.Contents().Keys) <= store.Contents().Keys
      ensures forall i: int, c <- contexts ::
        Rank(StageOf(old(stages), (i, c.scope))) <= Rank(StageOf(stages, (i, c.scope)))
      ensures old(dirty) || SaysMore(chunk) ==> ReadyAreStaged(stages, choices, contexts)
      ensures OnlyReadyRise(stages, old(stages), choices, contexts)
      ensures RaisedAreFiled(stages, old(stages), filed, choices, contexts, namespace)
      ensures store.Unlimited() && old(Keeps(store.Contents(), contexts, namespace)) ==>
        RaisedAreKept(stages, old(stages), store.Contents(), choices, contexts, namespace)
      ensures old(flushed) <= flushed
      ensures Wrote(store.closed, old(store.rows), store.rows, writes, FlushedEntries(flushed[|old(flushed)|..]),
                    store.limits)
    {
      hide FinalMeansFinished, Ingested, LateAfter, Reopened, RisingStages, InOrder, Accounted, Wrote, FlushedEntries,
        RaisedAreFiled, RaisedAreKept, ReadyAreStaged, OnlyReadyRise, NothingLost, FiledUnder, UniformStages, StageOf;
      if FinalMeansFinished(stages, choices) { LateAreReopened(late, stages, choices, chunk); }
      IngestChunk(chunk);
      ghost var raised := dirty;
      StoreReadyEverywhere(contexts, namespace);
      ghost var queued := pending;
      var stored;
      stored, writes := FlushPendingStore(store);
      assert flushed[|old(flushed)|..] == queued;
      if store.Unlimited() && old(Keeps(store.Contents(), contexts, namespace)) {
        KeepsMeansKept(store.Contents(), contexts, namespace);
        FiledAreKept(Books(), old(stages), store.Contents(), choices, contexts, namespace);
      }
    }

    lemma KeepsMeansKept(cache: Cache, contexts: seq<Context>, namespace: Namespace)
      requires Keeps(cache, contexts, namespace)
      ensures KeptOrPending(cache, Books())
    {
    }

    method StoreReadyEverywhere(contexts: seq<Context>, namespace: Namespace)
      requires Valid() && Uniform(contexts) && DistinctScopes(contexts)
      modifies this`stages, this`pending, this`filed, this`log, this`dirty
      ensures Valid() && Uniform(contexts)
      ensures old(log) <= log
      ensures forall cache :: old(Keeps(cache, contexts, namespace)) ==> Keeps(cache, contexts, namespace)
      ensures old(FiledFor(contexts, namespace)) ==> FiledFor(contexts, namespace)
      ensures FinalMeansFinished(old(stages), choices) ==> FinalMeansFinished(stages, choices)
      ensures forall i: int, c <- contexts ::
        Rank(StageOf(old(stages), (i, c.scope))) <= Rank(StageOf(stages, (i, c.scope)))
      ensures old(dirty) ==> ReadyAreStaged(stages, choices, contexts)
      ensures OnlyReadyRise(stages, old(stages), choices, contexts)
      ensures RaisedAreFiled(stages, old(stages), filed, choices, contexts, namespace)
    {
      hide QueuedAll, RaisedUpTo, NothingToRaise, RisingStages, InOrder, Accounted, FinalMeansFinished, StageOf,
        UniformStages, RaisedAreFiled, ReadyAreStaged, OnlyReadyRise, NothingLost, FiledUnder;
      ghost var was, wasDirty := stages, dirty;
      NothingRaisedYet(was, choices, contexts);
      NothingRaisedAreFiled(was, filed, choices, contexts, namespace);
      ListedOnce(order, choices);
      for k := 0 to |contexts|
        invariant Valid() && (wasDirty || !dirty)
        invariant old(log) <= log
        invariant forall cache :: old(Keeps(cache, contexts, namespace)) ==> Keeps(cache, contexts, namespace)
        invariant old(FiledFor(contexts, namespace)) ==> FiledFor(contexts, namespace)
        invariant FinalMeansFinished(was, choices) ==> FinalMeansFinished(stages, choices)
        invariant !wasDirty ==> stages == was
        invariant wasDirty ==> RaisedUpTo(stages, was, choices, contexts, k)
        // The flag falls only when nothing was left to raise; then nothing is left under the other contexts either.
        invariant wasDirty && !dirty ==> NothingToRaise(was, choices, contexts)
        invariant RaisedAreFiled(stages, was, filed, choices, contexts, namespace)
      {
        ghost var before := Books();
        if wasDirty {
          RaiseNext(before, was, order, choices, contexts, k, namespace);
          NotRaisedYet(stages, was, choices, contexts, k);
          RaisingOneMore(before, was, order, choices, ReadyChoices, contexts, k, namespace);
        }
        var queued := StoreReadyReasoning(contexts[k], namespace);
      }
      NothingRises(was, choices, contexts);
      if wasDirty {
        AllRaisedIsUniform(stages, was, choices, contexts);
        AllRaisedAreReady(stages, was, choices, contexts);
      }
    }

    /** The only choice of the stream, not yet final under any of the contexts, and nothing pending. */
    ghost predicate OnlyUnfinished(contexts: seq<Context>)
      reads this
    {
      && |order| == 1 && order[0] in choices && pending == [] && DistinctScopes(contexts)
      && forall k :: 0 <= k < |contexts| ==> StageOf(stages, (order[0], contexts[k].scope)) != Some(FinalStage)
    }

    method StoreEverywhere(contexts: seq<Context>, namespace: Namespace)
      requires Valid()
      modifies this`stages, this`pending, this`filed, this`log
      ensures Valid()
      ensures old(log) <= log
      ensures forall cache :: old(Keeps(cache, contexts, namespace)) ==> Keeps(cache, contexts, namespace)
      ensures old(FiledFor(contexts, namespace)) ==> FiledFor(contexts, namespace)
      ensures AllFinal(contexts)
      ensures old(OnlyUnfinished(contexts)) ==>
        pending == PendingFor(ToMessage(choices[order[0]]), order[0], contexts, namespace)
    {
      hide QueuedAll, RisingStages, PendingFor, ToMessage, InOrder, Accounted, NothingLost, FiledUnder;
      ghost var single := OnlyUnfinished(contexts);
      ghost var only := if single then order[0] else 0;
      assert single ==> only in order && order == [only];
      if single { NothingPending(ToMessage(choices[only]), only, contexts, namespace); }
      for k := 0 to |contexts|
        invariant Valid()
        invariant old(log) <= log
        invariant forall cache :: old(Keeps(cache, contexts, namespace)) ==> Keeps(cache, contexts, namespace)
        invariant old(FiledFor(contexts, namespace)) ==> FiledFor(contexts, namespace)
        invariant forall i, a :: i in choices && 0 <= a < k ==>
          StageOf(stages, (i, contexts[a].scope)) == Some(FinalStage)
        invariant single ==> pending == PendingFor(ToMessage(choices[only]), only, contexts[..k], namespace)
        invariant single ==>
          forall a :: k <= a < |contexts| ==> StageOf(stages, (only, contexts[a].scope)) != Some(FinalStage)
      {
        if single { QueueOneMore(Books(), only, choices, contexts, k, namespace); }
        var queued := StoreReasoning(contexts[k], namespace);
        assert single ==> forall a :: k < a < |contexts| ==> contexts[a].scope != contexts[k].scope;
      }
      assert contexts[..|contexts|] == contexts;
    }

    /** However the stream ends, every choice is final under every context and nothing is pending. If nothing came
        for a choice after it had become final, its message is in the cache under every context; and if the stream
        had one choice, not final before, the cache is as if the whole message had been recorded. */
    method Finish(contexts: seq<Context>, namespace: Namespace, store: ReasoningStore)
      returns (ghost writes: seq<Write>)
      requires Valid()
      modifies this, store`rows
      ensures Valid() && pending == [] && choices == old(choices) && order == old(order) && late == old(late)
      ensures AllFinal(contexts)
      ensures old(log) <= log
      ensures store.Unlimited() ==> old(store.Contents().Keys) <= store.Contents().Keys
      ensures store.Unlimited() && DistinctScopes(contexts) && old(Keeps(store.Contents(), contexts, namespace)) ==>
        AllKept(store.Contents(), contexts, namespace)
      ensures DistinctScopes(contexts) && old(FiledFor(contexts, namespace)) ==> AllFlushed(contexts, namespace)
      ensures old(flushed) <= flushed
      ensures Wrote(store.closed, old(store.rows), store.rows, writes, FlushedEntries(flushed[|old(flushed)|..]),
                    store.limits)
      ensures store.Unlimited() && old(OnlyUnfinished(contexts)) ==>
        store.Contents() == RecordedUnder(old(store.Contents()), ToMessage(choices[order[0]]), contexts, namespace)
    {
      hide RisingStages, PendingFor, Flushed, RecordedUnder, ToMessage, InOrder, Accounted, Kept, DistinctScopes,
        NothingLost, FiledUnder, Wrote, FlushedEntries, Visible;
      if OnlyUnfinished(contexts) {
        assert order[0] in order;
        FlushingIsRecording(store.Contents(), ToMessage(choices[order[0]]), order[0], contexts, namespace);
      }
      StoreEverywhere(contexts, namespace);
      ghost var queued := pending;
      var stored;
      stored, writes := FlushPendingStore(store);
      assert flushed[|old(flushed)|..] == queued;
      if DistinctScopes(contexts) && old(FiledFor(contexts, namespace)) { FinalIsFlushed(contexts, namespace); }
      if store.Unlimited() && DistinctScopes(contexts) && old(Keeps(store.Contents(), contexts, namespace)) {
        FinalIsKept(store.Contents(), contexts, namespace);
      }
    }

    /** Every choice is final under every context. */
    ghost predicate AllFinal(contexts: seq<Context>)
      reads this
    {
      forall i, c :: i in choices && c in contexts ==> StageOf(stages, (i, c.scope)) == Some(FinalStage)
    }

    /** Every choice that nothing came for after it became final is in the cache under every context. */
    ghost predicate AllKept(cache: Cache, contexts: seq<Context>, namespace: Namespace)
      reads this
    {
      forall i, c :: i in choices && i !in late && c in contexts ==> Kept(cache, EntryFor(i, choices[i], c, namespace))
    }

    /** The final message of every choice that nothing came for after it became final has been written. */
    ghost predicate AllFlushed(contexts: seq<Context>, namespace: Namespace)
      reads this
    {
      forall i, c :: i in choices && i !in late && c in contexts ==> EntryFor(i, choices[i], c, namespace) in flushed
    }

    /** Every choice with reasoning that nothing came for after it became final is found by everything it has. */
    ghost predicate AllFound(cache: Cache, contexts: seq<Context>, namespace: Namespace)
      reads this
    {
      forall i, c ::
        i in choices && i !in late && c in contexts && choices[i].role == Assistant && choices[i].hasReasoning ==>
          FoundByAll(cache, choices[i], c, namespace)
    }

    lemma KeptIsFound(cache: Cache, contexts: seq<Context>, namespace: Namespace)
      requires AllKept(cache, contexts, namespace)
      ensures AllFound(cache, contexts, namespace)
    {
      hide Kept, FoundByAll, EntryFor;
      forall i, c |
        i in choices && i !in late && c in contexts && choices[i].role == Assistant && choices[i].hasReasoning
        ensures FoundByAll(cache, choices[i], c, namespace)
      {
        KeptIsFoundByAll(cache, i, choices[i], c, namespace);
      }
    }

    lemma FinalIsFiled(contexts: seq<Context>, namespace: Namespace, i: int, c: Context)
      requires Valid() && FiledFor(contexts, namespace) && AllFinal(contexts) && DistinctScopes(contexts)
      requires i in choices && i !in late && c in contexts
      ensures (i, c.scope) in filed && filed[(i, c.scope)] == EntryFor(i, choices[i], c, namespace)
    {
      hide RisingStages, ToMessage, NothingLost;
      var key := (i, c.scope);
      assert StageOf(stages, key) == Some(FinalStage);
      assert key in filed;
      assert Context(c.scope, filed[key].prior) == c;
    }

    lemma FinalIsFlushed(contexts: seq<Context>, namespace: Namespace)
      requires Valid() && pending == [] && FiledFor(contexts, namespace)
      requires AllFinal(contexts) && DistinctScopes(contexts)
      ensures AllFlushed(contexts, namespace)
    {
      hide RisingStages, InOrder, FiledUnder, EntryFor, AllFinal, DistinctScopes;
      forall i, c | i in choices && i !in late && c in contexts
        ensures EntryFor(i, choices[i], c, namespace) in flushed
      {
        FinalIsFiled(contexts, namespace, i, c);
      }
    }

    lemma FinalIsKept(cache: Cache, contexts: seq<Context>, namespace: Namespace)
      requires Valid() && pending == [] && Keeps(cache, contexts, namespace)
      requires AllFinal(contexts) && DistinctScopes(contexts)
      ensures AllKept(cache, contexts, namespace)
    {
      hide RisingStages, Kept, InOrder, FiledUnder, EntryFor, AllFinal, DistinctScopes, NothingLost;
      forall i, c | i in choices && i !in late && c in contexts
        ensures Kept(cache, EntryFor(i, choices[i], c, namespace))
      {
        FinalIsFiled(contexts, namespace, i, c);
        assert !InPending(pending, (i, c.scope));
      }
    }
  }
}
