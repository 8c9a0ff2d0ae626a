/**
 Conversations whose replies are streamed. A turn that is streamed well is a turn like any other, so that what is
 proved of whole conversations, repair and sticky recovery included, holds of streamed replies too.
 */
module StreamedConversations {
  import opened Options
  import opened ThinkingBlocks
  import opened Transcript
  import opened Keys
  import opened ReasoningCache
  import opened Prepare
  import opened Response
  import opened Conversations
  import opened StickyRecovery
  import opened Deltas
  import opened Resplitting
  import opened Staging
  import opened Accumulator
  import opened SseStream
  import opened Sse
  import opened StreamRoundTrip

  /** The state in which the stream of a turn starts: no block open, and the notice pending if the turn carries one. */
  ghost function StartOf(before: Conversation, s: Setting): SseState {
    SseState({}, PendingNotice(Turn(before, s).notice))
  }

  ghost function ContextsOf(before: Conversation, s: Setting): seq<Context> {
    Contexts(Pre(before, s), Turn(before, s).messages, s.namespace)
  }

  /** The message of the choice is in the cache under every context. */
  ghost predicate KeptUnder(cache: Cache, index: int, choice: StreamingChoice, contexts: seq<Context>,
                            namespace: Namespace) {
    forall c <- contexts :: Kept(cache, EntryFor(index, choice, c, namespace))
  }

  /** The reply to a turn is the given choice of a stream, which leaves the cache `after`. */
  ghost predicate StreamedTurn(before: Conversation, s: Setting, lines: seq<Line>, index: int, after: Cache) {
    && StreamsWell(lines, Turn(before, s).notice, s.display, index)
    && AnyReasoning(PartsOf(lines, index))
    && EchoesClean(AsRecorded(before, UpstreamMessage(lines, index), s), s.display)
    && Turn(before, s).cache.Keys <= after.Keys
    && KeptUnder(after, index, Recorded(lines, StartOf(before, s), s.display, index), ContextsOf(before, s),
                 s.namespace)
  }

  /** The end of the stream leaves a choice kept under every context, if nothing came for it after its finish. */
  lemma StreamLeavesItKept(accumulator: StreamAccumulator, cache: Cache, lines: seq<Line>, start: SseState,
                           display: Option<Style>, contexts: seq<Context>, namespace: Namespace, index: int)
    requires accumulator.AllKept(cache, contexts, namespace)
    requires accumulator.choices == AccumulatedOver(lines, start, display, map[])
    requires forall i <- accumulator.late :: !FinishComesLast(lines, start, display, map[], i)
    requires FinishComesLast(lines, start, display, map[], index) && Recorded(lines, start, display, index).hasReasoning
    ensures KeptUnder(cache, index, Recorded(lines, start, display, index), contexts, namespace)
  {
    hide AccumulatedOver, FinishComesLast, Kept, EntryFor;
  }

  lemma StoredIsWithinKept(cache: Cache, after: Cache, p: Pending)
    requires cache.Keys <= after.Keys && Kept(after, p)
    ensures Stored(cache, p.message, p.key.1, p.namespace, p.prior).Keys <= after.Keys
  {
    hide ScopedKeys, PortableKeys;
  }

  /** A cache that has lost nothing and keeps the message under every context has all keys that recording writes. */
  lemma {:induction false} KeptIsRecorded(cache: Cache, after: Cache, index: int, choice: StreamingChoice,
                                          contexts: seq<Context>, namespace: Namespace)
    requires cache.Keys <= after.Keys && KeptUnder(after, index, choice, contexts, namespace)
    ensures RecordedUnder(cache, ToMessage(choice), contexts, namespace).Keys <= after.Keys
  {
    hide Kept, Stored, ToMessage;
    if contexts != [] {
      var front, last := contexts[..|contexts| - 1], contexts[|contexts| - 1];
      assert last in contexts && forall c <- front :: c in contexts;
      KeptIsRecorded(cache, after, index, choice, front, namespace);
      StoredIsWithinKept(RecordedUnder(cache, ToMessage(choice), front, namespace), after,
                         EntryFor(index, choice, last, namespace));
    }
  }

  /** The conversation goes on after a streamed reply, with what the client makes of the stream. */
  ghost function Streamed(before: Conversation, s: Setting, lines: seq<Line>, index: int, additions: seq<Message>,
                          world: World): Conversation {
    Next(before, UpstreamMessage(lines, index), SentBack(lines, StartOf(before, s), s.display, index), additions, world)
  }

  /** A streamed reply continues a conversation like a whole one, if and only if what the client sends back loses no
      space. */
  lemma StreamedTurnContinues(before: Conversation, s: Setting, lines: seq<Line>, index: int, after: Cache,
                              additions: seq<Message>, world: World)
    requires Valid(before, s) && StreamedTurn(before, s, lines, index, after)
    requires OnlyOthers(additions) && after.Keys <= world.cache.Keys
    ensures Valid(Streamed(before, s, lines, index, additions, world), s)
      <==> !LosesSpace(lines, Turn(before, s).notice, s.display, index)
  {
    hide Turn, Pre, StreamsWell, LosesSpace, EchoesClean, Recorded, KeptUnder, RecordedUnder, Contexts, Normalized,
      Echo, OnlyOthers, WithPrefix, Whole, RecoveryNoticeContent;
    var upstream, notice := UpstreamMessage(lines, index), Turn(before, s).notice;
    var recorded := ToMessage(Recorded(lines, StartOf(before, s), s.display, index));
    assert AsRecorded(before, upstream, s) == WithNotice(upstream, PendingNotice(notice));
    StreamedReplyEchoesBack(lines, notice, s.display, index);
    KeptIsRecorded(Turn(before, s).cache, after, index, Recorded(lines, StartOf(before, s), s.display, index),
                   ContextsOf(before, s), s.namespace);
    assert CacheAfterTurn(before, upstream, s)
        == RecordedUnder(Turn(before, s).cache, recorded, ContextsOf(before, s), s.namespace);
    UpstreamThinks(lines, index);
  }

  lemma UpstreamThinks(lines: seq<Line>, index: int)
    requires AnyReasoning(PartsOf(lines, index))
    ensures UpstreamMessage(lines, index).reasoning.Thought?
  {
  }

  /** Recovery sticks for streamed replies: if the recovering turn and every turn after it was streamed well or
      answered whole, nothing is missing, nothing is cut and no notice is issued again. */
  lemma StreamedRecoverySticks(before: Conversation, s: Setting, lines: seq<Line>, index: int, after: Cache,
                               additions: seq<Message>, world: World)
    requires Valid(before, s) && StreamedTurn(before, s, lines, index, after)
    requires OnlyOthers(additions) && after.Keys <= world.cache.Keys
    requires StartsRecovered(before, s) && LaterRepliesArePlain(Streamed(before, s, lines, index, additions, world))
    requires !LosesSpace(lines, Turn(before, s).notice, s.display, index)
    ensures Untroubled(Turn(Streamed(before, s, lines, index, additions, world), s))
  {
    var c := Streamed(before, s, lines, index, additions, world);
    assert Root(c) == Root(before);
    hide Turn, Valid, StreamedTurn, LosesSpace, OnlyOthers, LaterRepliesArePlain, UpstreamMessage, SentBack;
    StreamedTurnContinues(before, s, lines, index, after, additions, world);
    RecoverySticks(c, s);
  }
}
