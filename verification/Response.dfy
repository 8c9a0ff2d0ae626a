/** Rewriting a complete (non-streamed) response: notice, recording, display — in that order. */
module Response {
  import opened Collections
  import opened Options
  import opened ThinkingBlocks
  import opened Transcript
  import opened Keys
  import opened ReasoningCache
  import opened Normalize
  import opened Prepare

  /** A response choice; `NoMessage` is one that is not an object with a message. */
  datatype Choice = NoMessage | Reply(message: Message)

  /** The content if it is text, else the empty string. */
  function TextOr(content: Option<Content>): string {
    match content
    case Some(Text(text)) => text
    case _ => ""
  }

  function WithPrefix(message: Message, prefix: string): Message {
    message.(content := Some(Text(prefix + TextOr(message.content))))
  }

  /** `fold_reasoning_into_content` on one message. */
  function Displayed(message: Message, style: Style): Message {
    if HasThought(message)
    then message.(content := Some(Text(Fold(style, message.reasoning.text, TextOr(message.content)))))
    else message
  }

  // ---------------------------------------------------------------- specification

  ghost function Prefixed(choices: seq<Choice>, prefix: string): seq<Choice> {
    if choices == [] then []
    else if choices[0].Reply? then [Reply(WithPrefix(choices[0].message, prefix))] + choices[1..]
    else [choices[0]] + Prefixed(choices[1..], prefix)
  }

  ghost function DisplayedAll(choices: seq<Choice>, style: Style): (shown: seq<Choice>)
    ensures |shown| == |choices|
  {
    seq(|choices|, i requires 0 <= i < |choices| =>
      if choices[i].Reply? then Reply(Displayed(choices[i].message, style)) else NoMessage)
  }

  ghost function RecordedUnder(cache: Cache, message: Message, contexts: seq<Context>, namespace: Namespace): Cache {
    if contexts == [] then cache
    else
      var last := contexts[|contexts| - 1];
      Stored(RecordedUnder(cache, message, contexts[..|contexts| - 1], namespace), message, last.scope, namespace,
             last.messages)
  }

  ghost function RecordedChoices(cache: Cache, choices: seq<Choice>, contexts: seq<Context>,
                                 namespace: Namespace): Cache {
    if choices == [] then cache
    else
      var last := choices[|choices| - 1];
      var earlier := RecordedChoices(cache, choices[..|choices| - 1], contexts, namespace);
      if last.Reply? then RecordedUnder(earlier, last.message, contexts, namespace) else earlier
  }

  /** What recording writes. */
  ghost function EntriesUnder(message: Message, contexts: seq<Context>, namespace: Namespace): seq<Entry> {
    if contexts == [] then []
    else
      var last := contexts[|contexts| - 1];
      EntriesUnder(message, contexts[..|contexts| - 1], namespace)
      + StoredEntries(message, last.scope, namespace, last.messages)
  }

  ghost function EntriesOfChoices(choices: seq<Choice>, contexts: seq<Context>, namespace: Namespace): seq<Entry> {
    if choices == [] then []
    else
      var last := choices[|choices| - 1];
      EntriesOfChoices(choices[..|choices| - 1], contexts, namespace)
      + if last.Reply? then EntriesUnder(last.message, contexts, namespace) else []
  }

  ghost function CountUnder(message: Message, contexts: seq<Context>, namespace: Namespace): nat {
    if contexts == [] then 0
    else
      var last := contexts[|contexts| - 1];
      CountUnder(message, contexts[..|contexts| - 1], namespace)
      + KeysStored(message, last.scope, namespace, last.messages)
  }

  ghost function CountChoices(choices: seq<Choice>, contexts: seq<Context>, namespace: Namespace): nat {
    if choices == [] then 0
    else
      var last := choices[|choices| - 1];
      CountChoices(choices[..|choices| - 1], contexts, namespace)
      + if last.Reply? then CountUnder(last.message, contexts, namespace) else 0
  }

  // ---------------------------------------------------------------- what a store that evicts keeps

  lemma WithinItself(cache: Cache)
    ensures Within(cache, cache)
  {
  }

  lemma WithinChain(a: Cache, b: Cache, c: Cache)
    requires Within(a, b) && Within(b, c)
    ensures Within(a, c)
  {
  }

  lemma {:induction false} RecordedUnderMonotone(a: Cache, b: Cache, message: Message, contexts: seq<Context>,
                                                 namespace: Namespace)
    requires Within(a, b)
    ensures Within(RecordedUnder(a, message, contexts, namespace), RecordedUnder(b, message, contexts, namespace))
  {
    hide Within, Stored;
    if contexts != [] {
      var front, last := contexts[..|contexts| - 1], contexts[|contexts| - 1];
      RecordedUnderMonotone(a, b, message, front, namespace);
      StoredMonotone(RecordedUnder(a, message, front, namespace), RecordedUnder(b, message, front, namespace),
                     message, last.scope, namespace, last.messages);
    }
  }

  // ---------------------------------------------------------------- methods

  ghost predicate IsFirstReply(choices: seq<Choice>, i: int) {
    0 <= i < |choices| && choices[i].Reply? && forall j :: 0 <= j < i ==> choices[j].NoMessage?
  }

  method PrefixResponseContent(choices: seq<Choice>, prefix: string) returns (prefixed: seq<Choice>, done: bool)
    ensures prefixed == Prefixed(choices, prefix)
    ensures done <==> exists i :: 0 <= i < |choices| && choices[i].Reply?
    // Of the choices only the first with a message changes, and of that only the content.
    ensures FirstIsPrefixed(choices, prefixed, prefix)
  {
    hide Prefixed, WithPrefix, FirstIsPrefixed;
    var i := 0;
    assert choices[0..] == choices;
    while i < |choices|
      invariant 0 <= i <= |choices|
      invariant forall j :: 0 <= j < i ==> choices[j].NoMessage?
      invariant Prefixed(choices, prefix) == choices[..i] + Prefixed(choices[i..], prefix)
    {
      PrefixedNext(choices, prefix, i);
      if choices[i].Reply? {
        prefixed := choices[..i] + ([Reply(WithPrefix(choices[i].message, prefix))] + choices[i + 1..]);
        PrefixedHere(choices, prefix, i);
        return prefixed, true;
      }
      Associates(choices[..i], [choices[i]], Prefixed(choices[i + 1..], prefix));
      assert choices[..i + 1] == choices[..i] + [choices[i]];
      i := i + 1;
    }
    NothingPrefixed(choices, prefix);
    assert choices[|choices|..] == [];
    return choices, false;
  }

  /** The first message gets the prefix in front of its content; nothing else changes. */
  ghost predicate FirstIsPrefixed(choices: seq<Choice>, prefixed: seq<Choice>, prefix: string) {
    && |prefixed| == |choices|
    && forall i :: 0 <= i < |choices| ==>
         if IsFirstReply(choices, i)
         then prefixed[i].Reply? && PrefixedMessage(prefixed[i].message, choices[i].message, prefix)
         else prefixed[i] == choices[i]
  }

  ghost predicate PrefixedMessage(after: Message, before: Message, prefix: string) {
    && after == before.(content := after.content)
    && after.content
       == Some(Text(prefix
                    + if before.content.Some? && before.content.value.Text? then before.content.value.text else ""))
  }

  lemma PrefixedNext(choices: seq<Choice>, prefix: string, i: nat)
    requires i < |choices|
    ensures Prefixed(choices[i..], prefix)
         == if choices[i].Reply? then [Reply(WithPrefix(choices[i].message, prefix))] + choices[i + 1..]
            else [choices[i]] + Prefixed(choices[i + 1..], prefix)
  {
    hide WithPrefix;
    assert choices[i..][0] == choices[i] && choices[i..][1..] == choices[i + 1..];
  }

  lemma PrefixedHere(choices: seq<Choice>, prefix: string, i: nat)
    requires i < |choices| && IsFirstReply(choices, i)
    ensures FirstIsPrefixed(choices,
                            choices[..i] + ([Reply(WithPrefix(choices[i].message, prefix))] + choices[i + 1..]), prefix)
  {
    assert PrefixedMessage(WithPrefix(choices[i].message, prefix), choices[i].message, prefix);
    hide WithPrefix, PrefixedMessage;
    assert forall j :: i < j < |choices| ==> !IsFirstReply(choices, j);
  }

  lemma NothingPrefixed(choices: seq<Choice>, prefix: string)
    requires forall j :: 0 <= j < |choices| ==> choices[j].NoMessage?
    ensures FirstIsPrefixed(choices, choices, prefix) && Prefixed([], prefix) == []
  {
  }

  ghost predicate ShownFor(shown: Choice, choice: Choice, style: Style) {
    if choice.Reply? && choice.message.reasoning.Thought? && choice.message.reasoning.text != ""
    then
      && shown.Reply? && shown.message == choice.message.(content := shown.message.content)
      && shown.message.content
         == Some(Text(BlockStart(style) + HtmlEscape(choice.message.reasoning.text) + BlockEnd(style)
                      + if choice.message.content.Some? && choice.message.content.value.Text?
                        then choice.message.content.value.text else ""))
    else shown == choice
  }

  lemma DisplayedIsShown(choice: Choice, style: Style)
    ensures ShownFor(if choice.Reply? then Reply(Displayed(choice.message, style)) else NoMessage, choice, style)
  {
  }

  method FoldReasoningIntoContent(choices: seq<Choice>, style: Style) returns (shown: seq<Choice>)
    ensures shown == DisplayedAll(choices, style)
    // The content of a message with reasoning is the folded block and the text; nothing else changes.
    ensures |shown| == |choices| && forall i :: 0 <= i < |choices| ==> ShownFor(shown[i], choices[i], style)
  {
    hide ShownFor, Displayed;
    shown := [];
    for i := 0 to |choices|
      invariant shown == DisplayedAll(choices[..i], style)
      invariant forall j :: 0 <= j < i ==> ShownFor(shown[j], choices[j], style)
    {
      DisplayedIsShown(choices[i], style);
      var next := if choices[i].Reply? then Reply(Displayed(choices[i].message, style)) else NoMessage;
      assert DisplayedAll(choices[..i + 1], style) == DisplayedAll(choices[..i], style) + [next];
      shown := shown + [next];
    }
    assert choices[..|choices|] == choices;
  }

  method RecordUnder(message: Message, store: ReasoningStore, contexts: seq<Context>,
                     namespace: Namespace) returns (stored: nat, ghost writes: seq<Write>)
    modifies store`rows
    ensures Wrote(store.closed, old(store.rows), store.rows, writes, EntriesUnder(message, contexts, namespace),
                  store.limits)
    ensures Within(store.Contents(), RecordedUnder(old(store.Contents()), message, contexts, namespace))
    ensures store.Unlimited() ==> store.Contents() == RecordedUnder(old(store.Contents()), message, contexts, namespace)
    ensures stored == CountUnder(message, contexts, namespace)
  {
    hide Within, Stored, KeysStored, StoredEntries, Wrote;
    stored, writes := 0, [];
    WithinItself(store.Contents());
    WroteNothing(store.closed, store.rows, store.limits);
    for i := 0 to |contexts|
      invariant Wrote(store.closed, old(store.rows), store.rows, writes,
                      EntriesUnder(message, contexts[..i], namespace),
                      store.limits)
      invariant Within(store.Contents(), RecordedUnder(old(store.Contents()), message, contexts[..i], namespace))
      invariant store.Unlimited() ==>
        store.Contents() == RecordedUnder(old(store.Contents()), message, contexts[..i], namespace)
      invariant stored == CountUnder(message, contexts[..i], namespace)
    {
      ghost var now, table := store.Contents(), store.rows;
      ghost var specified := RecordedUnder(old(store.Contents()), message, contexts[..i], namespace);
      assert contexts[..i + 1][..i] == contexts[..i];
      StoredMonotone(now, specified, message, contexts[i].scope, namespace, contexts[i].messages);
      var n, more := store.StoreAssistantMessage(message, contexts[i].scope, namespace, contexts[i].messages);
      WroteMore(store.closed, old(store.rows), table, store.rows, writes, more,
                EntriesUnder(message, contexts[..i], namespace),
                StoredEntries(message, contexts[i].scope, namespace, contexts[i].messages), store.limits);
      writes := writes + more;
      WithinChain(store.Contents(), Stored(now, message, contexts[i].scope, namespace, contexts[i].messages),
                  Stored(specified, message, contexts[i].scope, namespace, contexts[i].messages));
      stored := stored + n;
    }
    assert contexts[..|contexts|] == contexts;
  }

  /** Every key counted once for each message and context it is written for. */
  method RecordResponseReasoning(choices: seq<Choice>, store: ReasoningStore?, contexts: seq<Context>,
                                 namespace: Namespace) returns (stored: nat, ghost writes: seq<Write>)
    modifies store
    ensures store != null ==> store.closed == old(store.closed)
    ensures store != null ==>
      Wrote(store.closed, old(store.rows), store.rows, writes, EntriesOfChoices(choices, contexts, namespace),
            store.limits)
    ensures store != null ==>
      Within(store.Contents(), RecordedChoices(old(store.Contents()), choices, contexts, namespace))
    ensures store != null && old(store.Unlimited()) ==>
      store.Contents() == RecordedChoices(old(store.Contents()), choices, contexts, namespace)
    ensures stored == if store == null then 0 else CountChoices(choices, contexts, namespace)
  {
    hide Within, RecordedUnder, CountUnder, EntriesUnder, Wrote;
    stored, writes := 0, [];
    if store == null { return; }
    WithinItself(store.Contents());
    WroteNothing(store.closed, store.rows, store.limits);
    for i := 0 to |choices|
      invariant Wrote(store.closed, old(store.rows), store.rows, writes,
                      EntriesOfChoices(choices[..i], contexts, namespace), store.limits)
      invariant store.closed == old(store.closed)
      invariant Within(store.Contents(), RecordedChoices(old(store.Contents()), choices[..i], contexts, namespace))
      invariant store.Unlimited() ==>
        store.Contents() == RecordedChoices(old(store.Contents()), choices[..i], contexts, namespace)
      invariant stored == CountChoices(choices[..i], contexts, namespace)
    {
      assert choices[..i + 1][..i] == choices[..i];
      if choices[i].Reply? {
        ghost var now, table := store.Contents(), store.rows;
        ghost var specified := RecordedChoices(old(store.Contents()), choices[..i], contexts, namespace);
        RecordedUnderMonotone(now, specified, choices[i].message, contexts, namespace);
        var n, more := RecordUnder(choices[i].message, store, contexts, namespace);
        WroteMore(store.closed, old(store.rows), table, store.rows, writes, more,
                  EntriesOfChoices(choices[..i], contexts, namespace),
                  EntriesUnder(choices[i].message, contexts, namespace), store.limits);
        writes := writes + more;
        WithinChain(store.Contents(), RecordedUnder(now, choices[i].message, contexts, namespace),
                    RecordedUnder(specified, choices[i].message, contexts, namespace));
        stored := stored + n;
      } else {
        assert EntriesOfChoices(choices[..i], contexts, namespace) + []
            == EntriesOfChoices(choices[..i], contexts, namespace);
      }
    }
    assert choices[..|choices|] == choices;
  }

  /** The reply is recorded with the notice the client will echo, and before its reasoning is folded in. */
  method RewriteResponse(choices: seq<Choice>, store: ReasoningStore?, contexts: seq<Context>, namespace: Namespace,
                         notice: bool, display: Option<Style>)
    returns (shown: seq<Choice>, ghost writes: seq<Write>)
    modifies store
    ensures var recorded := if notice then Prefixed(choices, RecoveryNoticeContent()) else choices;
      && shown == (match display case Some(style) => DisplayedAll(recorded, style) case None => recorded)
      && (store != null ==>
           Within(store.Contents(), RecordedChoices(old(store.Contents()), recorded, contexts, namespace)))
      && (store != null && old(store.Unlimited()) ==>
           store.Contents() == RecordedChoices(old(store.Contents()), recorded, contexts, namespace))
      && (store != null ==>
           Wrote(store.closed, old(store.rows), store.rows, writes, EntriesOfChoices(recorded, contexts, namespace),
                 store.limits))
  {
    shown := choices;
    if notice {
      var done;
      shown, done := PrefixResponseContent(shown, RecoveryNoticeContent());
    }
    var stored;
    stored, writes := RecordResponseReasoning(shown, store, contexts, namespace);
    if display.Some? {
      shown := FoldReasoningIntoContent(shown, display.value);
    }
  }

  // ---------------------------------------------------------------- the echo

  /** What a client sends back: the shown message without its reasoning. */
  function Echo(recorded: Message, display: Option<Style>): Message {
    (match display case Some(style) => Displayed(recorded, style) case None => recorded).(reasoning := Absent)
  }

  /** A reply whose text the echo path gives back: no thinking block of its own, and no leading whitespace of the
      kind the path removes. */
  ghost predicate EchoesClean(recorded: Message, display: Option<Style>) {
    && recorded.role == Assistant
    && (recorded.content.Some? ==> recorded.content.value.Text? || recorded.content.value.Null?)
    && var text := TextOr(recorded.content);
      HasNoBlock(text)
      && (if display.Some? && HasThought(recorded) then SkipSpace(text) else SkipNewlines(text)) == text
  }

  lemma NoBlockStripsClean(text: string)
    requires HasNoBlock(text)
    ensures StripThinkingBlocks(text) == SkipNewlines(text)
    ensures SkipSpace(text) == text ==> SkipNewlines(text) == text
  {
    NoBlockAfterSpace(text);
  }

  /** The echo, normalised by the next request, has the signature the reply was recorded under. */
  lemma EchoRestoresSignature(recorded: Message, display: Option<Style>)
    requires EchoesClean(recorded, display)
    ensures var echoed := Normalized(Echo(recorded, display), true);
      && MessageSignature(echoed) == MessageSignature(recorded)
      && echoed.role == Assistant && echoed.reasoning == Absent
      && (echoed.toolCalls == [] <==> recorded.toolCalls == [])
      && (echoed.content.Some? && recorded.content.Some? && recorded.content.value.Text? ==>
           echoed.content == recorded.content)
      && Settled(echoed)
  {
    var text := TextOr(recorded.content);
    NormalizedCallsIdempotent(recorded.toolCalls);
    NoBlockAfterSpace(text);
    NoBlockStripsClean(text);
    hide RemoveBlocks, SkipSpace, SkipNewlines, StripThinkingBlocks, Fold, HasNoBlock;
    if display.Some? && HasThought(recorded) {
      DisplayRoundTrip(display.value, recorded.reasoning.text, text);
      assert Normalized(Echo(recorded, display), true).content == Some(Text(text));
    }
  }
}
