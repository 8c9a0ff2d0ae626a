/** Storing the reasoning of a stream in stages, while it arrives. */
module Staging {
  import opened Options
  import opened Transcript
  import opened Keys
  import opened ReasoningCache
  import opened KeyFacts
  import opened Prepare
  import opened Response
  import opened Stream
  import opened Deltas

  datatype Stage = ToolCallStage | FinalStage

  /** Rank of a stage; 0 is not stored at all. */
  function Rank(stage: Option<Stage>): nat {
    match stage case None => 0 case Some(ToolCallStage) => 1 case Some(FinalStage) => 2
  }

  datatype Mode = EveryChoice | FinishedChoices | ReadyChoices

  predicate HasIdentifiedToolCalls(choice: StreamingChoice) {
    choice.hasReasoning && choice.calls != [] && forall call <- choice.calls :: call.id != ""
  }

  /** The stage at which each of the three store operations wants a choice. */
  function WantedStage(mode: Mode, choice: StreamingChoice): Option<Stage> {
    match mode
    case EveryChoice => Some(FinalStage)
    case FinishedChoices => if choice.finish.Some? then Some(FinalStage) else None
    case ReadyChoices =>
      if choice.finish.Some? then Some(FinalStage)
      else if HasIdentifiedToolCalls(choice) then Some(ToolCallStage)
      else None
  }

  type StorageKey = (int, Scope)

  datatype Pending = Pending(key: StorageKey, message: Message, namespace: Namespace, prior: seq<Message>)

  /** Insertion into an ordered dictionary: an existing key keeps its place. */
  function Upsert(pending: seq<Pending>, entry: Pending): seq<Pending> {
    if pending == [] then [entry]
    else if pending[0].key == entry.key then [entry] + pending[1..]
    else [pending[0]] + Upsert(pending[1..], entry)
  }

  function StageOf(stages: map<StorageKey, Stage>, key: StorageKey): Option<Stage> {
    if key in stages then Some(stages[key]) else None
  }

  datatype Queueing = Queueing(key: StorageKey, stage: Stage)

  /** `filed` is what was last queued under each key, and `log` every queueing so far, in order; these two only serve
      the specification. */
  datatype Buffer = Buffer(stages: map<StorageKey, Stage>, pending: seq<Pending>, filed: map<StorageKey, Pending>,
                           log: seq<Queueing>)

  const EMPTY_BUFFER := Buffer(map[], [], map[], [])

  /** Queueing an entry at a stage. */
  ghost function Filed(buffer: Buffer, entry: Pending, stage: Stage): Buffer {
    Buffer(buffer.stages[entry.key := stage], Upsert(buffer.pending, entry), buffer.filed[entry.key := entry],
           buffer.log + [Queueing(entry.key, stage)])
  }

  function EntryFor(index: int, choice: StreamingChoice, context: Context, namespace: Namespace): Pending {
    Pending((index, context.scope), ToMessage(choice), namespace, context.messages)
  }

  /** `_store_choice`: queued only if that raises the stage of the choice under the scope. */
  ghost function Queued(buffer: Buffer, index: int, choice: StreamingChoice, mode: Mode, context: Context,
                        namespace: Namespace): Buffer {
    var wanted := WantedStage(mode, choice);
    if Rank(StageOf(buffer.stages, (index, context.scope))) >= Rank(wanted) then buffer
    else Filed(buffer, EntryFor(index, choice, context, namespace), wanted.value)
  }

  ghost function QueuedAll(buffer: Buffer, order: seq<int>, choices: map<int, StreamingChoice>, mode: Mode,
                           context: Context, namespace: Namespace): Buffer
    requires forall i <- order :: i in choices
  {
    if order == [] then buffer
    else
      var last := order[|order| - 1];
      assert forall i <- order[..|order| - 1] :: i in order;
      Queued(QueuedAll(buffer, order[..|order| - 1], choices, mode, context, namespace), last, choices[last], mode,
             context, namespace)
  }

  /** The stage a choice reaches: what it had, or what is wanted if that is higher. */
  function Raised(stage: Option<Stage>, wanted: Option<Stage>): Option<Stage> {
    if Rank(stage) >= Rank(wanted) then stage else wanted
  }

  lemma QueuedCases(buffer: Buffer, index: int, choice: StreamingChoice, mode: Mode, context: Context,
                    namespace: Namespace)
    ensures var entry, wanted := EntryFor(index, choice, context, namespace), WantedStage(mode, choice);
      && entry.key == (index, context.scope) && entry.message == ToMessage(choice)
      && Queued(buffer, index, choice, mode, context, namespace)
         == if Rank(StageOf(buffer.stages, entry.key)) >= Rank(wanted) then buffer
            else Filed(buffer, entry, wanted.value)
  {
  }

  lemma QueuedOneStage(buffer: Buffer, index: int, choice: StreamingChoice, mode: Mode, context: Context,
                       namespace: Namespace)
    ensures var after := Queued(buffer, index, choice, mode, context, namespace);
      && (forall key: StorageKey :: StageOf(after.stages, key) ==
            if key == (index, context.scope) then Raised(StageOf(buffer.stages, key), WantedStage(mode, choice))
            else StageOf(buffer.stages, key))
      && buffer.log <= after.log
      && (|after.log| == |buffer.log| ==> after == buffer)
      && FiledAsRaised(buffer, after, index, choice, context, namespace)
  {
    hide WantedStage, Upsert, ToMessage;
  }

  ghost predicate SameFiled(a: map<StorageKey, Pending>, b: map<StorageKey, Pending>, key: StorageKey) {
    (key in a <==> key in b) && (key in a ==> a[key] == b[key])
  }

  ghost predicate FiledAs(filed: map<StorageKey, Pending>, key: StorageKey, entry: Pending) {
    key in filed && filed[key] == entry
  }

  /** What is filed changes for no other key, and for this one only with its stage. */
  ghost predicate FiledAsRaised(before: Buffer, after: Buffer, index: int, choice: StreamingChoice, context: Context,
                                namespace: Namespace)
  {
    forall key: StorageKey ::
      if StageOf(after.stages, key) == StageOf(before.stages, key)
      then SameFiled(before.filed, after.filed, key)
      else key == (index, context.scope) && FiledAs(after.filed, key, EntryFor(index, choice, context, namespace))
  }

  /** What is filed changes only with the stage, to the choice as it is. */
  ghost predicate AllFiledAsRaised(before: Buffer, after: Buffer, choices: map<int, StreamingChoice>, context: Context,
                                   namespace: Namespace)
  {
    forall key: StorageKey ::
      if StageOf(after.stages, key) == StageOf(before.stages, key)
      then SameFiled(before.filed, after.filed, key)
      else key.1 == context.scope && key.0 in choices && key in after.filed
           && after.filed[key] == EntryFor(key.0, choices[key.0], context, namespace)
  }

  lemma OneMoreFiled(before: Buffer, middle: Buffer, after: Buffer, choices: map<int, StreamingChoice>, index: int,
                     context: Context, namespace: Namespace)
    requires index in choices && AllFiledAsRaised(before, middle, choices, context, namespace)
    requires FiledAsRaised(middle, after, index, choices[index], context, namespace)
    requires StageOf(middle.stages, (index, context.scope)) == StageOf(before.stages, (index, context.scope))
    ensures AllFiledAsRaised(before, after, choices, context, namespace)
  {
    hide EntryFor, StageOf;
  }

  /** What queueing every choice does to the stages, and when it queues nothing. */
  lemma {:induction false} QueuedStages(buffer: Buffer, order: seq<int>, choices: map<int, StreamingChoice>, mode: Mode,
                                        context: Context, namespace: Namespace)
    requires forall i <- order :: i in choices
    requires forall i, j :: 0 <= i < j < |order| ==> order[i] != order[j]
    ensures var after := QueuedAll(buffer, order, choices, mode, context, namespace);
      && (forall key: StorageKey :: StageOf(after.stages, key) ==
            if key.0 in order && key.1 == context.scope
            then Raised(StageOf(buffer.stages, key), WantedStage(mode, choices[key.0]))
            else StageOf(buffer.stages, key))
      && buffer.log <= after.log
      && (|after.log| == |buffer.log| ==> after == buffer)
      && AllFiledAsRaised(buffer, after, choices, context, namespace)
  {
    if order == [] {
      NothingFiled(buffer, choices, context, namespace);
    } else {
      var front, last := order[..|order| - 1], order[|order| - 1];
      assert forall i <- front :: i in order;
      assert order == front + [last];
      assert last !in front;
      var before := QueuedAll(buffer, front, choices, mode, context, namespace);
      QueuedStages(buffer, front, choices, mode, context, namespace);
      QueuedOneStage(before, last, choices[last], mode, context, namespace);
      QueuedAllLast(buffer, order, choices, mode, context, namespace);
      hide Queued, QueuedAll, WantedStage, StageOf, Raised, FiledAsRaised, AllFiledAsRaised;
      OneMoreFiled(buffer, before, Queued(before, last, choices[last], mode, context, namespace), choices, last,
                   context, namespace);
    }
  }

  lemma QueuedAllLast(buffer: Buffer, order: seq<int>, choices: map<int, StreamingChoice>, mode: Mode,
                      context: Context, namespace: Namespace)
    requires order != [] && forall i <- order :: i in choices
    ensures var front, last := order[..|order| - 1], order[|order| - 1];
      && (forall i <- front :: i in order)
      && QueuedAll(buffer, order, choices, mode, context, namespace)
         == Queued(QueuedAll(buffer, front, choices, mode, context, namespace), last, choices[last], mode, context,
                   namespace)
  {
    hide Queued;
  }

  lemma NothingFiled(buffer: Buffer, choices: map<int, StreamingChoice>, context: Context, namespace: Namespace)
    ensures AllFiledAsRaised(buffer, buffer, choices, context, namespace)
  {
  }

  lemma FinishedBecomeFinal(buffer: Buffer, order: seq<int>, choices: map<int, StreamingChoice>, context: Context,
                            namespace: Namespace)
    requires forall i <- order :: i in choices
    requires forall i, j :: 0 <= i < j < |order| ==> order[i] != order[j]
    ensures var stages := QueuedAll(buffer, order, choices, FinishedChoices, context, namespace).stages;
      forall i <- order ::
        StageOf(stages, (i, context.scope))
        == if choices[i].finish.Some? then Some(FinalStage) else StageOf(buffer.stages, (i, context.scope))
  {
    hide QueuedAll, StageOf;
    QueuedStages(buffer, order, choices, FinishedChoices, context, namespace);
  }

  lemma EveryChoiceBecomesFinal(buffer: Buffer, order: seq<int>, choices: map<int, StreamingChoice>, context: Context,
                                namespace: Namespace)
    requires forall i <- order :: i in choices
    requires forall i, j :: 0 <= i < j < |order| ==> order[i] != order[j]
    ensures var stages := QueuedAll(buffer, order, choices, EveryChoice, context, namespace).stages;
      && (forall i <- order :: StageOf(stages, (i, context.scope)) == Some(FinalStage))
      && forall key: StorageKey :: key.1 != context.scope ==> StageOf(stages, key) == StageOf(buffer.stages, key)
  {
    hide QueuedAll, StageOf;
    QueuedStages(buffer, order, choices, EveryChoice, context, namespace);
  }

  /** What flushing writes: each pending message under its scope, in order. */
  ghost function Flushed(cache: Cache, pending: seq<Pending>): Cache {
    if pending == [] then cache
    else
      var last := pending[|pending| - 1];
      Stored(Flushed(cache, pending[..|pending| - 1]), last.message, last.key.1, last.namespace, last.prior)
  }

  /** What flushing puts into the store, in order. */
  ghost function FlushedEntries(pending: seq<Pending>): seq<Entry> {
    if pending == [] then []
    else
      var last := pending[|pending| - 1];
      FlushedEntries(pending[..|pending| - 1]) + StoredEntries(last.message, last.key.1, last.namespace, last.prior)
  }

  lemma {:induction false} FlushedEntriesConcat(a: seq<Pending>, b: seq<Pending>)
    ensures FlushedEntries(a + b) == FlushedEntries(a) + FlushedEntries(b)
  {
    hide StoredEntries;
    if b == [] {
      assert a + b == a;
    } else {
      assert (a + b)[..|a + b| - 1] == a + b[..|b| - 1];
      FlushedEntriesConcat(a, b[..|b| - 1]);
    }
  }

  lemma FlushedEntriesNext(pending: seq<Pending>, k: nat)
    requires k < |pending|
    ensures var p := pending[k];
      FlushedEntries(pending[..k + 1])
        == FlushedEntries(pending[..k]) + StoredEntries(p.message, p.key.1, p.namespace, p.prior)
  {
    hide StoredEntries;
    assert pending[..k + 1][..k] == pending[..k];
  }

  lemma FlushedNext(cache: Cache, pending: seq<Pending>, k: nat)
    requires k < |pending|
    ensures var p := pending[k];
      Flushed(cache, pending[..k + 1]) == Stored(Flushed(cache, pending[..k]), p.message, p.key.1, p.namespace, p.prior)
  {
    hide Stored;
    assert pending[..k + 1][..k] == pending[..k];
  }

  /** The stages at which a key was queued, in order. */
  ghost function StagesLogged(log: seq<Queueing>, key: StorageKey): seq<Stage> {
    if log == [] then []
    else
      var last := log[|log| - 1];
      StagesLogged(log[..|log| - 1], key) + if last.key == key then [last.stage] else []
  }

  /** Every choice was queued for every scope at most twice, at rising stages. */
  ghost predicate QueuedAtMostTwice(log: seq<Queueing>) {
    forall key: StorageKey ::
      var logged := StagesLogged(log, key);
      logged == [] || logged == [ToolCallStage] || logged == [FinalStage] || logged == [ToolCallStage, FinalStage]
  }

  /** The log keeps the bound, and `stages` has the last stage of each key. */
  ghost predicate RisingStages(stages: map<StorageKey, Stage>, log: seq<Queueing>) {
    && QueuedAtMostTwice(log)
    && forall key: StorageKey ::
         var logged := StagesLogged(log, key);
         StageOf(stages, key) == if logged == [] then None else Some(logged[|logged| - 1])
  }

  lemma StageRises(stages: map<StorageKey, Stage>, log: seq<Queueing>, key: StorageKey, stage: Stage)
    requires RisingStages(stages, log) && Rank(StageOf(stages, key)) < Rank(Some(stage))
    ensures RisingStages(stages[key := stage], log + [Queueing(key, stage)])
  {
    var longer := log + [Queueing(key, stage)];
    forall k: StorageKey ensures StagesLogged(longer, k) == StagesLogged(log, k) + if k == key then [stage] else [] {
      assert longer[..|log|] == log;
    }
    hide StagesLogged;
  }

  // ---------------------------------------------------------------- what is filed gets stored

  predicate InPending(pending: seq<Pending>, key: StorageKey) {
    exists p <- pending :: p.key == key
  }

  /** Pending messages are the filed ones, and a message filed as final is the choice as it is now, unless more has
      come for the choice since. */
  ghost predicate InOrder(buffer: Buffer, choices: map<int, StreamingChoice>, late: set<int>) {
    && buffer.filed.Keys == buffer.stages.Keys
    && (forall i, j :: 0 <= i < j < |buffer.pending| ==> buffer.pending[i].key != buffer.pending[j].key)
    && (forall p <- buffer.pending :: p.key in buffer.filed && p == buffer.filed[p.key])
    && (forall key :: key in buffer.filed ==> buffer.filed[key].key == key)
    && forall key :: key in buffer.stages && buffer.stages[key] == FinalStage && key.0 !in late ==>
         key.0 in choices && buffer.filed[key].message == ToMessage(choices[key.0])
  }

  /** The cache has the message under all keys of its scope and turn, if it is an assistant message with reasoning. */
  ghost predicate Kept(cache: Cache, p: Pending) {
    p.message.role == Assistant && p.message.reasoning.Thought? ==>
      forall k <- ScopedKeys(p.message, p.key.1) + PortableKeys(p.message, p.namespace, p.prior) :: k in cache
  }

  /** The reasoning of the choice is in the cache under everything the choice has: its content and calls together,
      and the id, form and name of each call; in the scope of the context, and in its turn. */
  ghost predicate FoundByAll(cache: Cache, choice: StreamingChoice, context: Context, namespace: Namespace) {
    forall selector ::
      Has(Message(Assistant, Some(Text(choice.content)), None, None, choice.calls, Absent, None), selector) ==>
        && Scoped(context.scope, selector) in cache
        && (!namespace.Unnamed? ==> Portable(namespace, TurnContext(context.messages), selector) in cache)
  }

  lemma KeptIsFoundByAll(cache: Cache, index: int, choice: StreamingChoice, context: Context, namespace: Namespace)
    requires Kept(cache, EntryFor(index, choice, context, namespace))
    requires choice.role == Assistant && choice.hasReasoning
    ensures FoundByAll(cache, choice, context, namespace)
  {
    hide Has, ScopedKeys, PortableKeys, TurnContext;
    var message := ToMessage(choice);
    forall selector | Has(Message(Assistant, Some(Text(choice.content)), None, None, choice.calls, Absent, None),
                          selector)
      ensures Scoped(context.scope, selector) in cache
      ensures !namespace.Unnamed? ==> Portable(namespace, TurnContext(context.messages), selector) in cache
    {
      HasIgnoresReasoning(message, selector);
      ScopedKeysExactly(message, context.scope, Scoped(context.scope, selector));
      PortableKeysExactly(message, namespace, context.messages,
                          Portable(namespace, TurnContext(context.messages), selector));
    }
  }

  lemma HasIgnoresReasoning(message: Message, selector: Selector)
    ensures Has(message.(reasoning := Absent), selector) <==> Has(message, selector)
  {
  }

  ghost predicate KeptOrPending(cache: Cache, buffer: Buffer) {
    forall key :: key in buffer.filed ==> InPending(buffer.pending, key) || Kept(cache, buffer.filed[key])
  }

  /** What is filed is still pending, or was flushed. */
  ghost predicate NothingLost(filed: map<StorageKey, Pending>, pending: seq<Pending>, flushed: seq<Pending>) {
    forall key :: key in filed ==> filed[key] in pending || filed[key] in flushed
  }

  lemma FilingLosesNothing(buffer: Buffer, entry: Pending, stage: Stage, flushed: seq<Pending>)
    requires forall i, j :: 0 <= i < j < |buffer.pending| ==> buffer.pending[i].key != buffer.pending[j].key
    requires forall key :: key in buffer.filed ==> buffer.filed[key].key == key
    requires NothingLost(buffer.filed, buffer.pending, flushed)
    ensures var after := Filed(buffer, entry, stage); NothingLost(after.filed, after.pending, flushed)
  {
    hide Upsert;
    UpsertFacts(buffer.pending, entry);
  }

  lemma FlushingLosesNothing(filed: map<StorageKey, Pending>, pending: seq<Pending>, flushed: seq<Pending>)
    requires NothingLost(filed, pending, flushed)
    ensures NothingLost(filed, [], flushed + pending)
  {
  }

  /** Everything was filed for one of the contexts. */
  ghost predicate FiledUnder(filed: map<StorageKey, Pending>, contexts: seq<Context>, namespace: Namespace) {
    forall key :: key in filed ==> filed[key].namespace == namespace && Context(key.1, filed[key].prior) in contexts
  }

  /** What was queued for the contexts is still pending or in the cache. */
  ghost predicate Accounted(cache: Cache, buffer: Buffer, contexts: seq<Context>, namespace: Namespace) {
    KeptOrPending(cache, buffer) && FiledUnder(buffer.filed, contexts, namespace)
  }

  lemma {:induction false} UpsertFacts(pending: seq<Pending>, entry: Pending)
    requires forall i, j :: 0 <= i < j < |pending| ==> pending[i].key != pending[j].key
    ensures var after := Upsert(pending, entry);
      && (forall i, j :: 0 <= i < j < |after| ==> after[i].key != after[j].key)
      && (forall p :: p in after <==> p == entry || (p in pending && p.key != entry.key))
  {
    if pending != [] {
      var first, rest := pending[0], pending[1..];
      assert pending == [first] + rest;
      assert forall p <- rest :: p.key != first.key;
      UpsertFacts(rest, entry);
      if first.key == entry.key {
        assert Upsert(pending, entry) == [entry] + rest;
      } else {
        assert Upsert(pending, entry) == [first] + Upsert(rest, entry);
      }
    }
  }

  lemma QueuedStaysInOrder(buffer: Buffer, index: int, choices: map<int, StreamingChoice>, late: set<int>, mode: Mode,
                           context: Context, namespace: Namespace, flushed: seq<Pending>)
    requires index in choices && InOrder(buffer, choices, late)
    requires NothingLost(buffer.filed, buffer.pending, flushed)
    ensures var after := Queued(buffer, index, choices[index], mode, context, namespace);
      && InOrder(after, choices, late)
      && NothingLost(after.filed, after.pending, flushed)
      && (forall contexts :: context in contexts && FiledUnder(buffer.filed, contexts, namespace) ==>
            FiledUnder(after.filed, contexts, namespace))
      && forall cache: Cache, contexts :: context in contexts && Accounted(cache, buffer, contexts, namespace) ==>
           Accounted(cache, after, contexts, namespace)
  {
    hide Queued, Filed, ToMessage, WantedStage, InOrder, Accounted, EntryFor, NothingLost, FiledUnder;
    QueuedCases(buffer, index, choices[index], mode, context, namespace);
    var entry, wanted := EntryFor(index, choices[index], context, namespace), WantedStage(mode, choices[index]);
    if Rank(StageOf(buffer.stages, entry.key)) < Rank(wanted) {
      FilingStaysInOrder(buffer, entry, wanted.value, choices, late);
      PendingOnce(buffer, choices, late);
      FilingLosesNothing(buffer, entry, wanted.value, flushed);
      forall contexts | context in contexts && FiledUnder(buffer.filed, contexts, namespace)
        ensures FiledUnder(Filed(buffer, entry, wanted.value).filed, contexts, namespace)
      {
        EntryIsForContext(index, choices[index], context, namespace);
        FilingIsForContexts(buffer, entry, wanted.value, contexts, namespace);
      }
      forall cache: Cache, contexts | context in contexts && Accounted(cache, buffer, contexts, namespace)
        ensures Accounted(cache, Filed(buffer, entry, wanted.value), contexts, namespace)
      {
        EntryIsForContext(index, choices[index], context, namespace);
        FilingIsAccounted(cache, buffer, entry, wanted.value, contexts, namespace);
      }
    }
  }

  lemma FilingIsForContexts(buffer: Buffer, entry: Pending, stage: Stage, contexts: seq<Context>, namespace: Namespace)
    requires FiledUnder(buffer.filed, contexts, namespace)
    requires entry.namespace == namespace && Context(entry.key.1, entry.prior) in contexts
    ensures FiledUnder(Filed(buffer, entry, stage).filed, contexts, namespace)
  {
  }

  lemma PendingOnce(buffer: Buffer, choices: map<int, StreamingChoice>, late: set<int>)
    requires InOrder(buffer, choices, late)
    ensures forall key :: key in buffer.filed ==> buffer.filed[key].key == key
    ensures forall i, j :: 0 <= i < j < |buffer.pending| ==> buffer.pending[i].key != buffer.pending[j].key
  {
  }

  lemma EntryIsForContext(index: int, choice: StreamingChoice, context: Context, namespace: Namespace)
    ensures var entry := EntryFor(index, choice, context, namespace);
      entry.namespace == namespace && Context(entry.key.1, entry.prior) == context
  {
  }

  lemma FilingStaysInOrder(buffer: Buffer, entry: Pending, stage: Stage, choices: map<int, StreamingChoice>,
                           late: set<int>)
    requires InOrder(buffer, choices, late)
    requires entry.key.0 in choices && entry.message == ToMessage(choices[entry.key.0])
    ensures InOrder(Filed(buffer, entry, stage), choices, late)
  {
    hide Upsert, ToMessage;
    UpsertFacts(buffer.pending, entry);
  }

  lemma FilingIsAccounted(cache: Cache, buffer: Buffer, entry: Pending, stage: Stage, contexts: seq<Context>,
                          namespace: Namespace)
    requires forall i, j :: 0 <= i < j < |buffer.pending| ==> buffer.pending[i].key != buffer.pending[j].key
    requires Accounted(cache, buffer, contexts, namespace)
    requires entry.namespace == namespace && Context(entry.key.1, entry.prior) in contexts
    ensures Accounted(cache, Filed(buffer, entry, stage), contexts, namespace)
  {
    hide Upsert, Kept;
    UpsertFacts(buffer.pending, entry);
    var after := Filed(buffer, entry, stage);
    assert entry in after.pending;
    forall k | k in after.filed ensures InPending(after.pending, k) || Kept(cache, after.filed[k]) {
      if k != entry.key && InPending(buffer.pending, k) {
        var p :| p in buffer.pending && p.key == k;
        assert p in after.pending;
      }
    }
  }

  lemma StoredKeepsWhatIsKept(cache: Cache, p: Pending, other: Pending)
    ensures var after := Stored(cache, p.message, p.key.1, p.namespace, p.prior);
      && cache.Keys <= after.Keys
      && (Kept(cache, other) ==> Kept(after, other))
      && Kept(after, p)
  {
    hide ScopedKeys, PortableKeys;
  }

  lemma {:induction false} FlushingKeeps(cache: Cache, pending: seq<Pending>, p: Pending)
    ensures cache.Keys <= Flushed(cache, pending).Keys
    ensures Kept(cache, p) || p in pending ==> Kept(Flushed(cache, pending), p)
  {
    hide Kept, Stored;
    if pending != [] {
      var front, last := pending[..|pending| - 1], pending[|pending| - 1];
      assert pending == front + [last];
      FlushingKeeps(cache, front, p);
      StoredKeepsWhatIsKept(Flushed(cache, front), last, p);
    }
  }

  /** Flushing stores everything that was filed, and forgets nothing. */
  lemma FlushedIsKept(cache: Cache, buffer: Buffer, choices: map<int, StreamingChoice>, late: set<int>)
    requires InOrder(buffer, choices, late) && KeptOrPending(cache, buffer)
    ensures KeptOrPending(Flushed(cache, buffer.pending), buffer.(pending := []))
  {
    hide Kept, Flushed;
    forall key | key in buffer.filed ensures Kept(Flushed(cache, buffer.pending), buffer.filed[key]) {
      FlushingKeeps(cache, buffer.pending, buffer.filed[key]);
    }
  }

  lemma AfterFlushing(cache: Cache, buffer: Buffer, choices: map<int, StreamingChoice>, late: set<int>)
    requires InOrder(buffer, choices, late)
    ensures InOrder(buffer.(pending := []), choices, late)
    ensures cache.Keys <= Flushed(cache, buffer.pending).Keys
    ensures forall contexts, namespace :: Accounted(cache, buffer, contexts, namespace) ==>
      Accounted(Flushed(cache, buffer.pending), buffer.(pending := []), contexts, namespace)
  {
    if KeptOrPending(cache, buffer) { FlushedIsKept(cache, buffer, choices, late); }
    FlushingKeeps(cache, buffer.pending, Pending((0, Scope(Unnamed, [])), ToMessage(EMPTY_CHOICE), Unnamed, []));
  }

  ghost predicate IsFinal(stages: map<StorageKey, Stage>, index: int) {
    exists key :: key in stages && key.0 == index && stages[key] == FinalStage
  }

  /** Only finished choices are final: so it is while the stream runs. */
  ghost predicate FinalMeansFinished(stages: map<StorageKey, Stage>, choices: map<int, StreamingChoice>) {
    forall key :: key in stages && stages[key] == FinalStage ==> key.0 in choices && choices[key.0].finish.Some?
  }

  /** The finished choices that a chunk has more for. */
  ghost function Reopened(choices: map<int, StreamingChoice>, chunk: Chunk): set<int> {
    set raw | raw in chunk && raw.index in choices && choices[raw.index].finish.Some? :: raw.index
  }

  lemma {:induction false} QueuedStaysFinished(buffer: Buffer, order: seq<int>, choices: map<int, StreamingChoice>,
                                               context: Context, namespace: Namespace)
    requires forall i <- order :: i in choices
    requires FinalMeansFinished(buffer.stages, choices)
    ensures FinalMeansFinished(QueuedAll(buffer, order, choices, ReadyChoices, context, namespace).stages, choices)
  {
    if order != [] {
      var front, last := order[..|order| - 1], order[|order| - 1];
      assert forall i <- front :: i in order;
      hide Upsert, ToMessage, HasIdentifiedToolCalls;
      QueuedStaysFinished(buffer, front, choices, context, namespace);
    }
  }

  lemma {:induction false} FinishStays(choices: map<int, StreamingChoice>, chunk: Chunk, index: int)
    requires index in choices && choices[index].finish.Some?
    ensures index in Ingested(choices, chunk) && Ingested(choices, chunk)[index].finish.Some?
  {
    if chunk != [] { FinishStays(choices, chunk[..|chunk| - 1], index); }
  }

  /** Which choices a chunk makes late. */
  ghost function LateAfter(late: set<int>, stages: map<StorageKey, Stage>, chunk: Chunk): set<int> {
    late + set raw | raw in chunk && IsFinal(stages, raw.index) :: raw.index
  }

  lemma LateAfterNext(late: set<int>, stages: map<StorageKey, Stage>, chunk: Chunk, k: nat)
    requires k < |chunk|
    ensures LateAfter(LateAfter(late, stages, chunk[..k]), stages, [chunk[k]])
         == LateAfter(late, stages, chunk[..k + 1])
  {
    assert chunk[..k + 1] == chunk[..k] + [chunk[k]];
    hide IsFinal;
  }

  /** A choice may change once it is late. */
  lemma LateStaysInOrder(buffer: Buffer, choices: map<int, StreamingChoice>, late: set<int>, raw: ChunkChoice,
                         next: StreamingChoice)
    requires InOrder(buffer, choices, late)
    ensures InOrder(buffer, choices[raw.index := next], LateAfter(late, buffer.stages, [raw]))
  {
    var later := LateAfter(late, buffer.stages, [raw]);
    hide ToMessage;
    assert raw in [raw];
    assert IsFinal(buffer.stages, raw.index) ==> raw.index in later;
  }

  lemma LateAreReopened(late: set<int>, stages: map<StorageKey, Stage>, choices: map<int, StreamingChoice>,
                        chunk: Chunk)
    requires FinalMeansFinished(stages, choices)
    ensures LateAfter(late, stages, chunk) <= late + Reopened(choices, chunk)
    ensures FinalMeansFinished(stages, Ingested(choices, chunk))
  {
    forall key | key in stages && stages[key] == FinalStage
      ensures key.0 in Ingested(choices, chunk) && Ingested(choices, chunk)[key.0].finish.Some?
    {
      FinishStays(choices, chunk, key.0);
    }
  }

  // ---------------------------------------------------------------- streamed and whole responses record alike

  /** Queueing the only choice under several fresh scopes and flushing is recording the whole message. */
  ghost function PendingFor(message: Message, index: int, contexts: seq<Context>,
                            namespace: Namespace): (pending: seq<Pending>)
    ensures |pending| == |contexts|
  {
    seq(|contexts|, k requires 0 <= k < |contexts| =>
      Pending((index, contexts[k].scope), message, namespace, contexts[k].messages))
  }

  lemma {:induction false} FlushingIsRecording(cache: Cache, message: Message, index: int, contexts: seq<Context>,
                                               namespace: Namespace)
    ensures Flushed(cache, PendingFor(message, index, contexts, namespace))
         == RecordedUnder(cache, message, contexts, namespace)
  {
    hide Stored;
    if contexts != [] {
      var front := contexts[..|contexts| - 1];
      FlushingIsRecording(cache, message, index, front, namespace);
      assert PendingFor(message, index, contexts, namespace)[..|front|] == PendingFor(message, index, front, namespace);
    }
  }

  lemma NothingPending(message: Message, index: int, contexts: seq<Context>, namespace: Namespace)
    ensures PendingFor(message, index, contexts[..0], namespace) == []
  {
  }

  /** Queueing under one more scope appends: the scope is not pending yet. */
  lemma QueueOneMore(before: Buffer, index: int, choices: map<int, StreamingChoice>, contexts: seq<Context>, k: nat,
                     namespace: Namespace)
    requires k < |contexts| && DistinctScopes(contexts) && index in choices
    requires before.pending == PendingFor(ToMessage(choices[index]), index, contexts[..k], namespace)
    requires StageOf(before.stages, (index, contexts[k].scope)) != Some(FinalStage)
    ensures QueuedAll(before, [index], choices, EveryChoice, contexts[k], namespace).pending
         == PendingFor(ToMessage(choices[index]), index, contexts[..k + 1], namespace)
  {
    assert [index][..0] == [];
    var entry := Pending((index, contexts[k].scope), ToMessage(choices[index]), namespace, contexts[k].messages);
    assert QueuedAll(before, [], choices, EveryChoice, contexts[k], namespace) == before;
    assert QueuedAll(before, [index], choices, EveryChoice, contexts[k], namespace)
        == Queued(before, index, choices[index], EveryChoice, contexts[k], namespace);
    UpsertNew(before.pending, entry);
    assert before.pending + [entry] == PendingFor(ToMessage(choices[index]), index, contexts[..k + 1], namespace);
  }

  lemma {:induction false} UpsertNew(pending: seq<Pending>, entry: Pending)
    requires forall i :: 0 <= i < |pending| ==> pending[i].key != entry.key
    ensures Upsert(pending, entry) == pending + [entry]
  {
    if pending != [] { UpsertNew(pending[1..], entry); }
  }

  /** `response_recording_contexts` gives each scope once. */
  ghost predicate DistinctScopes(contexts: seq<Context>) {
    forall a, b :: 0 <= a < b < |contexts| ==> contexts[a].scope != contexts[b].scope
  }

  /** Each choice is at one stage under all contexts. */
  ghost predicate UniformStages(stages: map<StorageKey, Stage>, contexts: seq<Context>) {
    forall i: int, a, b :: 0 <= a < |contexts| && 0 <= b < |contexts| ==>
      StageOf(stages, (i, contexts[a].scope)) == StageOf(stages, (i, contexts[b].scope))
  }

  /** The stage a choice is raised to when the flag is up. */
  ghost function ReadyStage(was: map<StorageKey, Stage>, choices: map<int, StreamingChoice>,
                            key: StorageKey): Option<Stage> {
    if key.0 in choices then Raised(StageOf(was, key), WantedStage(ReadyChoices, choices[key.0])) else StageOf(was, key)
  }

  ghost predicate RaisedUpTo(stages: map<StorageKey, Stage>, was: map<StorageKey, Stage>,
                             choices: map<int, StreamingChoice>, contexts: seq<Context>, k: int) {
    forall i: int, a :: 0 <= a < |contexts| ==>
      StageOf(stages, (i, contexts[a].scope))
        == if a < k then ReadyStage(was, choices, (i, contexts[a].scope)) else StageOf(was, (i, contexts[a].scope))
  }

  ghost predicate NothingToRaise(was: map<StorageKey, Stage>, choices: map<int, StreamingChoice>,
                                 contexts: seq<Context>) {
    forall i: int, a :: 0 <= a < |contexts| ==>
      ReadyStage(was, choices, (i, contexts[a].scope)) == StageOf(was, (i, contexts[a].scope))
  }

  /** Queueing under the next context: it raises what the contexts before it raised, and if it has nothing to raise
      then, the contexts having agreed, none of them had. */
  lemma RaiseNext(before: Buffer, was: map<StorageKey, Stage>, order: seq<int>, choices: map<int, StreamingChoice>,
                  contexts: seq<Context>, k: nat, namespace: Namespace)
    requires k < |contexts| && DistinctScopes(contexts) && UniformStages(was, contexts)
    requires forall i :: i in order <==> i in choices
    requires forall i, j :: 0 <= i < j < |order| ==> order[i] != order[j]
    requires RaisedUpTo(before.stages, was, choices, contexts, k)
    ensures var after := QueuedAll(before, order, choices, ReadyChoices, contexts[k], namespace);
      && RaisedUpTo(after.stages, was, choices, contexts, k + 1)
      && (|after.log| == |before.log| ==> NothingToRaise(was, choices, contexts))
    ensures NothingToRaise(was, choices, contexts) ==> RaisedUpTo(before.stages, was, choices, contexts, k + 1)
  {
    QueuedStages(before, order, choices, ReadyChoices, contexts[k], namespace);
    var after := QueuedAll(before, order, choices, ReadyChoices, contexts[k], namespace);
    hide QueuedAll, WantedStage;
    forall i: int, a | 0 <= a < |contexts|
      ensures StageOf(after.stages, (i, contexts[a].scope))
           == if a < k + 1 then ReadyStage(was, choices, (i, contexts[a].scope))
              else StageOf(was, (i, contexts[a].scope))
    {
      assert contexts[a].scope == contexts[k].scope <==> a == k;
    }
    if |after.log| == |before.log| {
      forall i: int, a | 0 <= a < |contexts|
        ensures ReadyStage(was, choices, (i, contexts[a].scope)) == StageOf(was, (i, contexts[a].scope))
      {
        assert StageOf(was, (i, contexts[a].scope)) == StageOf(was, (i, contexts[k].scope));
        assert StageOf(after.stages, (i, contexts[k].scope)) == StageOf(before.stages, (i, contexts[k].scope));
      }
    }
  }

  /** Where the stage has been raised, the choice was filed as it is now. */
  ghost predicate RaisedAreFiled(stages: map<StorageKey, Stage>, was: map<StorageKey, Stage>,
                                 filed: map<StorageKey, Pending>, choices: map<int, StreamingChoice>,
                                 contexts: seq<Context>, namespace: Namespace)
  {
    forall i: int, a ::
      0 <= a < |contexts| && StageOf(stages, (i, contexts[a].scope)) != StageOf(was, (i, contexts[a].scope)) ==>
        i in choices && FiledAs(filed, (i, contexts[a].scope), EntryFor(i, choices[i], contexts[a], namespace))
  }

  lemma NothingRaisedAreFiled(was: map<StorageKey, Stage>, filed: map<StorageKey, Pending>,
                              choices: map<int, StreamingChoice>, contexts: seq<Context>, namespace: Namespace)
    ensures RaisedAreFiled(was, was, filed, choices, contexts, namespace)
  {
  }

  /** Queueing for one context more: no scope is there twice, so what was raised before stays as it was filed. */
  lemma RaisingOneMore(before: Buffer, was: map<StorageKey, Stage>, order: seq<int>, choices: map<int, StreamingChoice>,
                       mode: Mode, contexts: seq<Context>, k: nat, namespace: Namespace)
    requires k < |contexts| && DistinctScopes(contexts)
    requires forall i <- order :: i in choices
    requires forall i, j :: 0 <= i < j < |order| ==> order[i] != order[j]
    requires forall i: int, a :: k <= a < |contexts| ==>
      StageOf(before.stages, (i, contexts[a].scope)) == StageOf(was, (i, contexts[a].scope))
    requires RaisedAreFiled(before.stages, was, before.filed, choices, contexts, namespace)
    ensures var after := QueuedAll(before, order, choices, mode, contexts[k], namespace);
      && RaisedAreFiled(after.stages, was, after.filed, choices, contexts, namespace)
      && forall i: int, a :: k < a < |contexts| ==>
        StageOf(after.stages, (i, contexts[a].scope)) == StageOf(was, (i, contexts[a].scope))
  {
    hide QueuedAll, StageOf, WantedStage, EntryFor, Raised;
    QueuedStages(before, order, choices, mode, contexts[k], namespace);
    var after := QueuedAll(before, order, choices, mode, contexts[k], namespace);
    forall i: int, a | 0 <= a < |contexts|
      && StageOf(after.stages, (i, contexts[a].scope)) != StageOf(was, (i, contexts[a].scope))
      ensures i in choices && (i, contexts[a].scope) in after.filed
        && after.filed[(i, contexts[a].scope)] == EntryFor(i, choices[i], contexts[a], namespace)
    {
      FiledHere(before, after, choices, contexts, a, k, namespace, i);
    }
  }

  lemma FiledHere(before: Buffer, after: Buffer, choices: map<int, StreamingChoice>, contexts: seq<Context>, a: nat,
                  k: nat, namespace: Namespace, i: int)
    requires a < |contexts| && k < |contexts| && DistinctScopes(contexts)
    requires AllFiledAsRaised(before, after, choices, contexts[k], namespace)
    ensures var key := (i, contexts[a].scope);
      if StageOf(after.stages, key) == StageOf(before.stages, key)
      then SameFiled(before.filed, after.filed, key)
      else a == k && i in choices && FiledAs(after.filed, key, EntryFor(i, choices[i], contexts[a], namespace))
  {
    hide StageOf, EntryFor;
  }

  /** Where the stage has been raised, the choice as it is now is in the cache. */
  ghost predicate RaisedAreKept(stages: map<StorageKey, Stage>, was: map<StorageKey, Stage>, cache: Cache,
                                choices: map<int, StreamingChoice>, contexts: seq<Context>, namespace: Namespace)
  {
    forall i: int, a ::
      0 <= a < |contexts| && StageOf(stages, (i, contexts[a].scope)) != StageOf(was, (i, contexts[a].scope)) ==>
        i in choices && Kept(cache, EntryFor(i, choices[i], contexts[a], namespace))
  }

  lemma FiledAreKept(buffer: Buffer, was: map<StorageKey, Stage>, cache: Cache, choices: map<int, StreamingChoice>,
                     contexts: seq<Context>, namespace: Namespace)
    requires RaisedAreFiled(buffer.stages, was, buffer.filed, choices, contexts, namespace)
    requires KeptOrPending(cache, buffer) && buffer.pending == []
    ensures RaisedAreKept(buffer.stages, was, cache, choices, contexts, namespace)
  {
    hide StageOf, EntryFor, Kept;
  }

  /** All tool calls have their ids, and there is reasoning to store with them. */
  ghost predicate IsReady(choice: StreamingChoice) {
    choice.hasReasoning && choice.calls != [] && forall i :: 0 <= i < |choice.calls| ==> choice.calls[i].id != ""
  }

  /** The chunk brings reasoning or tool calls. */
  ghost predicate SaysMore(chunk: Chunk) {
    exists raw <- chunk :: raw.delta.Delta? && (raw.delta.reasoning.Some? || raw.delta.calls != [])
  }

  /** Finished choices are final under the contexts, and those with all their tool calls are stored at least early. */
  ghost predicate ReadyAreStaged(stages: map<StorageKey, Stage>, choices: map<int, StreamingChoice>,
                                 contexts: seq<Context>) {
    forall i, a :: i in choices && 0 <= a < |contexts| ==>
      && (choices[i].finish.Some? ==> StageOf(stages, (i, contexts[a].scope)) == Some(FinalStage))
      && (IsReady(choices[i]) ==> StageOf(stages, (i, contexts[a].scope)) != None)
  }

  /** Whatever rises is finished and then final, or has reasoning and all its tool calls and is then stored early. */
  ghost predicate OnlyReadyRise(stages: map<StorageKey, Stage>, was: map<StorageKey, Stage>,
                                choices: map<int, StreamingChoice>, contexts: seq<Context>) {
    forall i: int, a ::
      0 <= a < |contexts| && StageOf(stages, (i, contexts[a].scope)) != StageOf(was, (i, contexts[a].scope)) ==>
        i in choices && StageOf(stages, (i, contexts[a].scope))
          == if choices[i].finish.Some? then Some(FinalStage)
             else if IsReady(choices[i]) then Some(ToolCallStage) else None
  }

  lemma AllRaisedAreReady(stages: map<StorageKey, Stage>, was: map<StorageKey, Stage>,
                          choices: map<int, StreamingChoice>, contexts: seq<Context>)
    requires RaisedUpTo(stages, was, choices, contexts, |contexts|)
    ensures ReadyAreStaged(stages, choices, contexts) && OnlyReadyRise(stages, was, choices, contexts)
  {
    hide StageOf;
  }

  lemma NothingRises(was: map<StorageKey, Stage>, choices: map<int, StreamingChoice>, contexts: seq<Context>)
    ensures OnlyReadyRise(was, was, choices, contexts)
  {
    hide StageOf;
  }

  lemma NotRaisedYet(stages: map<StorageKey, Stage>, was: map<StorageKey, Stage>, choices: map<int, StreamingChoice>,
                     contexts: seq<Context>, k: nat)
    requires RaisedUpTo(stages, was, choices, contexts, k)
    ensures forall i: int, a :: k <= a < |contexts| ==>
      StageOf(stages, (i, contexts[a].scope)) == StageOf(was, (i, contexts[a].scope))
  {
    hide StageOf;
  }

  lemma NothingRaisedYet(was: map<StorageKey, Stage>, choices: map<int, StreamingChoice>, contexts: seq<Context>)
    ensures RaisedUpTo(was, was, choices, contexts, 0)
  {
    hide StageOf, ReadyStage;
  }

  lemma AllRaisedIsUniform(stages: map<StorageKey, Stage>, was: map<StorageKey, Stage>,
                           choices: map<int, StreamingChoice>, contexts: seq<Context>)
    requires UniformStages(was, contexts) && RaisedUpTo(stages, was, choices, contexts, |contexts|)
    ensures UniformStages(stages, contexts)
    ensures forall i: int, c <- contexts :: Rank(StageOf(was, (i, c.scope))) <= Rank(StageOf(stages, (i, c.scope)))
  {
    hide WantedStage;
  }
}
