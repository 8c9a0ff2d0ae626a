/**
 Whole conversations. A client sends a transcript, gets a reply, echoes it without its reasoning, appends
 messages of its own and sends the longer transcript again. Between two turns other requests may do anything
 to the cache and to the shown notices, except make the cache forget keys.
 */
module Conversations {
  import opened Options
  import opened ThinkingBlocks
  import opened Transcript
  import opened Keys
  import opened ReasoningCache
  import opened Normalize
  import opened Recovery
  import opened Rounds
  import opened Prepare
  import opened Response
  import opened RepairFacts

  datatype World = World(cache: Cache, seen: set<Scope>)

  datatype Setting = Setting(namespace: Namespace, display: Option<Style>)

  /** `reply` is the message upstream sent, `sentBack` what the client makes of it; `world` is the state in which the
      turn's request arrives. */
  datatype Conversation =
    | Begin(opening: seq<Message>, world: World)
    | Next(before: Conversation, reply: Message, sentBack: Message, additions: seq<Message>, world: World)

  // ---------------------------------------------------------------- what happens in a turn

  ghost function Sent(c: Conversation, s: Setting): seq<Message>
    decreases c, 0
  {
    match c
    case Begin(opening, _) => opening
    case Next(before, _, sentBack, additions, _) => Sent(before, s) + [sentBack] + additions
  }

  ghost function Pre(c: Conversation, s: Setting): seq<Message> {
    NormalizedAll(Sent(c, s), true)
  }

  /** How the request of this turn is prepared. */
  ghost function Turn(c: Conversation, s: Setting): Progress
    decreases c, 1
  {
    PreparedWithThinking(Sent(c, s), s.namespace, Recover, c.world.cache, c.world.seen)
  }

  /** The reply as it is recorded and shown: with the notice, if this turn carries one. */
  ghost function AsRecorded(c: Conversation, reply: Message, s: Setting): Message
    decreases c, 2
  {
    if Turn(c, s).notice then WithPrefix(reply, RecoveryNoticeContent()) else reply
  }

  /** The cache after the reply to this turn has been recorded under every context. */
  ghost function CacheAfterTurn(c: Conversation, reply: Message, s: Setting): Cache {
    RecordedUnder(Turn(c, s).cache, AsRecorded(c, reply, s), Contexts(Pre(c, s), Turn(c, s).messages, s.namespace),
                  s.namespace)
  }

  ghost predicate OnlyOthers(messages: seq<Message>) {
    forall i :: 0 <= i < |messages| ==> messages[i].role != Assistant
  }

  /** The conversation the theorems are about: replies carry reasoning and echo cleanly, what comes back reads like
      the echo of what was recorded, the client appends no assistant messages of its own, and the cache forgets
      nothing. */
  ghost predicate Valid(c: Conversation, s: Setting) {
    match c
    case Begin(opening, _) => AllStripClean(opening)
    case Next(before, reply, sentBack, additions, world) =>
      && Valid(before, s)
      && reply.reasoning.Thought? && EchoesClean(AsRecorded(before, reply, s), s.display)
      && Normalized(sentBack, true) == Normalized(Echo(AsRecorded(before, reply, s), s.display), true)
      && OnlyOthers(additions)
      && CacheAfterTurn(before, reply, s).Keys <= world.cache.Keys
  }

  /** The reasoning text a reply came with. */
  ghost function ReplyText(c: Conversation): string
    requires c.Next?
  {
    if c.reply.reasoning.Thought? then c.reply.reasoning.text else ""
  }

  ghost predicate Untroubled(turn: Progress) {
    Violations(turn.messages) == [] && turn.dropped == 0 && turn.recovered == 0 && !turn.notice
  }

  // ---------------------------------------------------------------- the transcript grows

  ghost function Echoed(c: Conversation, s: Setting): Message
    requires c.Next?
  {
    Normalized(c.sentBack, true)
  }

  lemma PreGrows(c: Conversation, s: Setting)
    requires c.Next?
    ensures Pre(c, s) == Pre(c.before, s) + [Echoed(c, s)] + NormalizedAll(c.additions, true)
  {
  }

  lemma SettledConcat(a: seq<Message>, b: seq<Message>)
    requires AllSettled(a) && AllSettled(b)
    ensures AllSettled(a + b)
  {
  }

  lemma {:induction false} PreIsSettled(c: Conversation, s: Setting)
    requires Valid(c, s)
    ensures AllSettled(Pre(c, s))
  {
    hide Turn, AsRecorded, CacheAfterTurn, Settled, Normalized, EchoesClean, AllSettled, StripsClean;
    match c
    case Begin(opening, _) => NormalizedAllIsSettled(opening, true);
    case Next(before, reply, _, additions, _) =>
      PreIsSettled(before, s);
      PreGrows(c, s);
      EchoRestoresSignature(AsRecorded(before, reply, s), s.display);
      OthersStripClean(additions);
      NormalizedAllIsSettled(additions, true);
      AllOfOne(Echoed(c, s));
      SettledConcat(Pre(before, s), [Echoed(c, s)]);
      SettledConcat(Pre(before, s) + [Echoed(c, s)], NormalizedAll(additions, true));
  }

  lemma AllOfOne(message: Message)
    requires Settled(message)
    ensures AllSettled([message])
  {
  }

  lemma OthersStripClean(messages: seq<Message>)
    requires OnlyOthers(messages)
    ensures AllStripClean(messages)
  {
  }

  // ---------------------------------------------------------------- what recording leaves in the cache

  lemma StoredGrows(cache: Cache, message: Message, scope: Scope, namespace: Namespace, prior: seq<Message>)
    ensures cache.Keys <= Stored(cache, message, scope, namespace, prior).Keys
  {
  }

  lemma {:induction false} RecordedUnderGrows(cache: Cache, message: Message, contexts: seq<Context>,
                                              namespace: Namespace)
    ensures cache.Keys <= RecordedUnder(cache, message, contexts, namespace).Keys
  {
    if contexts != [] {
      var last := contexts[|contexts| - 1];
      RecordedUnderGrows(cache, message, contexts[..|contexts| - 1], namespace);
      StoredGrows(RecordedUnder(cache, message, contexts[..|contexts| - 1], namespace), message, last.scope, namespace,
                  last.messages);
    }
  }

  lemma StoredHolds(cache: Cache, message: Message, scope: Scope, namespace: Namespace, prior: seq<Message>)
    requires message.role == Assistant && message.reasoning.Thought?
    ensures var after := Stored(cache, message, scope, namespace, prior);
      && Scoped(scope, MessageSignature(message)) in after
      && after[Scoped(scope, MessageSignature(message))] == message.reasoning.text
      && (!namespace.Unnamed? ==> Portable(namespace, TurnContext(prior), MessageSignature(message)) in after)
  {
    var keys := ScopedKeys(message, scope) + PortableKeys(message, namespace, prior);
    assert Selectors(message)[0] == MessageSignature(message);
    assert keys[0] == Scoped(scope, MessageSignature(message)) && keys[0] in keys;
    if !namespace.Unnamed? {
      var portable := PortableKeys(message, namespace, prior);
      assert portable[0] == Portable(namespace, TurnContext(prior), MessageSignature(message)) && portable[0] in keys;
    }
  }

  /** Recording under the two contexts of a request leaves the signature of the reply under both scopes and under the
      turn of both histories. */
  lemma RecordingHolds(cache: Cache, message: Message, pre: seq<Message>, active: seq<Message>, namespace: Namespace)
    requires message.role == Assistant && message.reasoning.Thought?
    ensures var after := RecordedUnder(cache, message, Contexts(pre, active, namespace), namespace);
      && cache.Keys <= after.Keys
      && Scoped(ConversationScope(pre, namespace), MessageSignature(message)) in after
      && Scoped(ConversationScope(active, namespace), MessageSignature(message)) in after
      && after[Scoped(ConversationScope(pre, namespace), MessageSignature(message))] == message.reasoning.text
      && (!namespace.Unnamed? ==> Portable(namespace, TurnContext(active), MessageSignature(message)) in after)
  {
    var a, b := ConversationScope(pre, namespace), ConversationScope(active, namespace);
    var once := Stored(cache, message, a, namespace, pre);
    RecordedOnceOrTwice(cache, message, pre, active, namespace);
    if a == b { ScopeDeterminesTurn(pre, active); }
    hide ConversationScope, TurnContext, Stored, MessageSignature, RecordedUnder, Contexts;
    StoredHolds(cache, message, a, namespace, pre);
    StoredGrows(cache, message, a, namespace, pre);
    if a != b {
      StoredHolds(once, message, b, namespace, active);
      StoredGrows(once, message, b, namespace, active);
      OtherScopeUntouched(once, message, b, namespace, active, a);
    }
  }

  lemma RecordedOnceOrTwice(cache: Cache, message: Message, pre: seq<Message>, active: seq<Message>,
                            namespace: Namespace)
    ensures var a, b := ConversationScope(pre, namespace), ConversationScope(active, namespace);
      var once := Stored(cache, message, a, namespace, pre);
      RecordedUnder(cache, message, Contexts(pre, active, namespace), namespace)
      == if a == b then once else Stored(once, message, b, namespace, active)
  {
    var a := Context(ConversationScope(pre, namespace), pre);
    var b := Context(ConversationScope(active, namespace), active);
    TwoContexts(a, b);
    hide ConversationScope, Stored, FirstPerScope;
    assert [a][..0] == [] && [a, b][..1] == [a];
    assert RecordedUnder(cache, message, [a], namespace) == Stored(cache, message, a.scope, namespace, pre);
  }

  lemma TwoContexts(a: Context, b: Context)
    ensures FirstPerScope([Some(a), Some(b)]) == if a.scope == b.scope then [a] else [a, b]
  {
    assert [Some(a), Some(b)][..1] == [Some(a)];
    assert [Some(a)][..0] == [];
    assert FirstPerScope([Some(a)]) == [a];
  }

  lemma OtherScopeUntouched(cache: Cache, message: Message, scope: Scope, namespace: Namespace, prior: seq<Message>,
                            other: Scope)
    requires scope != other
    ensures var after := Stored(cache, message, scope, namespace, prior);
      forall sel :: (Scoped(other, sel) in after <==> Scoped(other, sel) in cache)
        && (Scoped(other, sel) in cache ==> after[Scoped(other, sel)] == cache[Scoped(other, sel)])
  {
    var keys := ScopedKeys(message, scope) + PortableKeys(message, namespace, prior);
    forall k | k in keys ensures !k.Scoped? || k.scope == scope {}
  }

  lemma SignatureIsFindable(cache: Cache, message: Message, namespace: Namespace, prior: seq<Message>)
    requires Scoped(ConversationScope(prior, namespace), MessageSignature(message)) in cache
          || (!namespace.Unnamed? && Portable(namespace, TurnContext(prior), MessageSignature(message)) in cache)
    ensures Findable(cache, message, namespace, prior)
  {
    var keys := KeyFamily(message, namespace, prior);
    var scoped := ScopedKeys(message, ConversationScope(prior, namespace));
    var portable := PortableKeys(message, namespace, prior);
    assert Selectors(message)[0] == MessageSignature(message);
    assert scoped[0] == Scoped(ConversationScope(prior, namespace), MessageSignature(message)) && scoped[0] in keys;
    if !namespace.Unnamed? {
      assert portable[0] == Portable(namespace, TurnContext(prior), MessageSignature(message)) && portable[0] in keys;
    }
  }

  // ---------------------------------------------------------------- a complete turn is untroubled

  /** If the plain transcript, or its form from the last notice on, can be repaired, nothing is cut. */
  lemma CompleteTurnIsUntroubled(c: Conversation, s: Setting)
    requires Valid(c, s)
    requires var pre := Pre(c, s);
      || Complete(c.world.cache, s.namespace, pre)
      || (ActiveFromBoundary(pre).Some? && Complete(c.world.cache, s.namespace, ActiveFromBoundary(pre).value.messages))
    ensures Untroubled(Turn(c, s))
    ensures var pre := Pre(c, s);
      if Complete(c.world.cache, s.namespace, pre)
      then Turn(c, s).steps == [] && AllOnlyReasoningDiffers(Turn(c, s).messages, pre)
           && Turn(c, s).cache == Repair(pre, s.namespace, c.world.cache).cache
           && Turn(c, s).messages == Repair(pre, s.namespace, c.world.cache).messages
      else Turn(c, s).steps == [ContinuedBoundary] && ActiveFromBoundary(pre).Some?
           && AllOnlyReasoningDiffers(Turn(c, s).messages, ActiveFromBoundary(pre).value.messages)
    ensures c.world.cache.Keys <= Turn(c, s).cache.Keys
  {
    var pre := Pre(c, s);
    PreIsSettled(c, s);
    var first := Repair(pre, s.namespace, c.world.cache);
    RepairsOnlyReasoning(pre, s.namespace, c.world.cache);
    if !Complete(c.world.cache, s.namespace, pre) {
      var active := ActiveFromBoundary(pre).value.messages;
      BoundaryFormIsSettled(pre, LastNotice(pre));
      CompleteIsMonotone(c.world.cache, first.cache, s.namespace, active);
      RepairsOnlyReasoning(active, s.namespace, first.cache);
    }
  }

  // ---------------------------------------------------------------- unbounded repair

  ghost function Root(c: Conversation): Conversation {
    if c.Begin? then c else Root(c.before)
  }

  /** The conversation starts without assistant messages. */
  ghost predicate StartsPlain(c: Conversation) {
    Root(c).Begin? && OnlyOthers(Root(c).opening)
  }

  lemma OthersStayOthers(messages: seq<Message>)
    requires OnlyOthers(messages)
    ensures OnlyOthers(NormalizedAll(messages, true))
    ensures forall i :: 0 <= i < |messages| ==> NormalizedRole(NormalizedAll(messages, true)[i].role) != Assistant
  {
  }

  /** The echo of a reply is found again under the history its recording named. */
  lemma EchoIsFindable(c: Conversation, s: Setting, history: seq<Message>)
    requires c.Next? && Valid(c, s)
    requires var recorded := AsRecorded(c.before, c.reply, s);
      || Scoped(ConversationScope(history, s.namespace), MessageSignature(recorded)) in c.world.cache
      || (!s.namespace.Unnamed?
          && Portable(s.namespace, TurnContext(history), MessageSignature(recorded)) in c.world.cache)
    ensures Settled(Echoed(c, s)) && Bared(Echoed(c, s)) == Echoed(c, s)
    ensures Findable(c.world.cache, Echoed(c, s), s.namespace, history)
  {
    EchoRestoresSignature(AsRecorded(c.before, c.reply, s), s.display);
    SignatureIsFindable(c.world.cache, Echoed(c, s), s.namespace, history);
  }

  /** What a complete turn records makes the next transcript complete. */
  lemma CompleteTurnIsFollowedByOne(c: Conversation, s: Setting)
    requires c.Next? && Valid(c, s)
    requires Complete(c.before.world.cache, s.namespace, Pre(c.before, s))
    ensures Complete(c.world.cache, s.namespace, Pre(c, s))
  {
    var pre := Pre(c.before, s);
    PreGrows(c, s);
    PreIsSettled(c.before, s);
    CompleteTurnIsUntroubled(c.before, s);
    RecordingHolds(Turn(c.before, s).cache, AsRecorded(c.before, c.reply, s), pre, Turn(c.before, s).messages,
                   s.namespace);
    OthersStayOthers(c.additions);
    hide Turn, Pre, AsRecorded, Complete, Findable, Contexts, RecordedUnder;
    EchoIsFindable(c, s, pre);
    CompleteExtends(c.before.world.cache, c.world.cache, s.namespace, pre, Echoed(c, s),
                    NormalizedAll(c.additions, true));
  }

  lemma {:induction false} PlainStartStaysComplete(c: Conversation, s: Setting)
    requires Valid(c, s) && StartsPlain(c)
    ensures Complete(c.world.cache, s.namespace, Pre(c, s))
  {
    match c
    case Begin(opening, world) =>
      OthersStayOthers(opening);
      OthersAreNeverMissing([], Pre(c, s), s.namespace, world.cache);
    case Next(before, _, _, _, _) =>
      PlainStartStaysComplete(before, s);
      CompleteTurnIsFollowedByOne(c, s);
  }

  /** Unbounded repair: in a conversation that starts without assistant messages every turn, however late, is
      repaired without a gap and without cutting anything. */
  lemma EveryTurnIsRepaired(c: Conversation, s: Setting)
    requires Valid(c, s) && StartsPlain(c)
    ensures Untroubled(Turn(c, s)) && Turn(c, s).steps == []
    ensures AllOnlyReasoningDiffers(Turn(c, s).messages, Pre(c, s))
  {
    PlainStartStaysComplete(c, s);
    CompleteTurnIsUntroubled(c, s);
  }

  // ---------------------------------------------------------------- with exactly the recorded text

  ghost predicate Earlier(d: Conversation, c: Conversation) {
    d == c || (c.Next? && Earlier(d, c.before))
  }

  /** The key a reply is first looked up under. */
  ghost function SignatureKey(d: Conversation, s: Setting): Key
    requires d.Next?
  {
    Scoped(ConversationScope(Pre(d.before, s), s.namespace), MessageSignature(AsRecorded(d.before, d.reply, s)))
  }

  /** Between turns nobody else rewrites the signature keys of this conversation's replies. */
  ghost predicate SignaturesKept(c: Conversation, s: Setting) {
    c.Next? ==>
      && SignaturesKept(c.before, s)
      && var after := CacheAfterTurn(c.before, c.reply, s);
        forall d :: Earlier(d, c) && d.Next? && SignatureKey(d, s) in after && SignatureKey(d, s) in c.world.cache ==>
          c.world.cache[SignatureKey(d, s)] == after[SignatureKey(d, s)]
  }

  lemma {:induction false} EarlierIsPrefix(d: Conversation, c: Conversation, s: Setting)
    requires Earlier(d, c)
    ensures Pre(d, s) <= Pre(c, s)
  {
    if d != c {
      EarlierIsPrefix(d, c.before, s);
      PreGrows(c, s);
    }
  }

  lemma ValidBefore(c: Conversation, s: Setting)
    requires Valid(c, s) && StartsPlain(c) && c.Next?
    ensures Valid(c.before, s) && StartsPlain(c.before)
    ensures SignaturesKept(c, s) ==> SignaturesKept(c.before, s)
  {
  }

  /** A turn leaves the signature keys of earlier replies alone. */
  lemma TurnKeepsEarlierSignatures(c: Conversation, s: Setting, d: Conversation)
    requires c.Next? && Valid(c, s) && StartsPlain(c) && d.Next? && Earlier(d, c.before)
    requires SignatureKey(d, s) in c.before.world.cache
    ensures SignatureKey(d, s) in CacheAfterTurn(c.before, c.reply, s)
    ensures CacheAfterTurn(c.before, c.reply, s)[SignatureKey(d, s)] == c.before.world.cache[SignatureKey(d, s)]
  {
    ValidBefore(c, s);
    PlainStartStaysComplete(c.before, s);
    CompleteTurnIsUntroubled(c.before, s);
    SignatureKeyIsShorter(c, s, d);
    PreIsSettled(c.before, s);
    var pre, turn := Pre(c.before, s), Turn(c.before, s);
    var cache := c.before.world.cache;
    RepairKeepsScopedKeys([], pre, s.namespace, cache);
    assert turn.cache == Repair(pre, s.namespace, cache).cache;
    hide Valid, Turn, Pre, AsRecorded, Complete, RepairFrom, RecordedUnder, Contexts;
    assert CacheAfterTurn(c.before, c.reply, s)
        == RecordedUnder(turn.cache, AsRecorded(c.before, c.reply, s), Contexts(pre, turn.messages, s.namespace),
                         s.namespace);
    RecordingKeepsOtherScopes(turn.cache, AsRecorded(c.before, c.reply, s), pre, turn.messages, s.namespace,
                              SignatureKey(d, s));
  }

  /** The scope an earlier reply was recorded under is a proper prefix of this turn's. */
  lemma SignatureKeyIsShorter(c: Conversation, s: Setting, d: Conversation)
    requires c.Next? && d.Next? && Earlier(d, c.before)
    ensures SignatureKey(d, s).Scoped?
    ensures SignatureKey(d, s).scope != ConversationScope(Pre(c.before, s), s.namespace)
  {
    hide Turn, AsRecorded;
    EarlierIsPrefix(d, c.before, s);
    PreGrows(d, s);
    assert |SignatureKey(d, s).scope.messages| == |Pre(d.before, s)| < |Pre(c.before, s)|;
  }

  /** When both histories have one scope, keys of any other scope are untouched. */
  lemma RecordingKeepsOtherScopes(cache: Cache, message: Message, pre: seq<Message>, active: seq<Message>,
                                  namespace: Namespace, key: Key)
    requires AllOnlyReasoningDiffers(active, pre)
    requires key.Scoped? && key.scope != ConversationScope(pre, namespace) && key in cache
    ensures var after := RecordedUnder(cache, message, Contexts(pre, active, namespace), namespace);
      key in after && after[key] == cache[key]
  {
    assert CanonicalAll(active) == CanonicalAll(pre);
    var context := Context(ConversationScope(pre, namespace), pre);
    TwoContexts(context, Context(ConversationScope(active, namespace), active));
    assert [context][..0] == [];
    assert RecordedUnder(cache, message, [context], namespace) == Stored(cache, message, context.scope, namespace, pre);
    OtherScopeUntouched(cache, message, context.scope, namespace, pre, key.scope);
    assert key == Scoped(key.scope, key.selector);
  }

  lemma {:induction false} SignaturesHoldTheirTexts(c: Conversation, s: Setting, d: Conversation)
    requires Valid(c, s) && StartsPlain(c) && SignaturesKept(c, s) && Earlier(d, c) && d.Next?
    ensures SignatureKey(d, s) in c.world.cache && c.world.cache[SignatureKey(d, s)] == ReplyText(d)
    decreases c
  {
    var after := CacheAfterTurn(c.before, c.reply, s);
    ValidBefore(c, s);
    hide Pre, Turn, RecordedUnder, Contexts;
    if d == c {
      RecordingHolds(Turn(c.before, s).cache, AsRecorded(c.before, c.reply, s), Pre(c.before, s),
                     Turn(c.before, s).messages, s.namespace);
    } else {
      SignaturesHoldTheirTexts(c.before, s, d);
      TurnKeepsEarlierSignatures(c, s, d);
    }
    assert SignatureKey(d, s) in after;
  }

  /** The message of the request that echoes reply `d`: with the reasoning it came with if it takes part in a tool
      turn, without reasoning otherwise. */
  ghost predicate SentExactly(c: Conversation, s: Setting, d: Conversation)
    requires d.Next?
  {
    var i := |Pre(d.before, s)|;
    && i < |Turn(c, s).messages| && i < |Pre(c, s)|
    && Turn(c, s).messages[i]
       == Echoed(d, s).(reasoning := if InToolTurn(Echoed(d, s), Pre(c, s)[..i]) then Thought(ReplyText(d)) else Absent)
  }

  /** Every reply of a tool turn goes back upstream with exactly the reasoning it came with. */
  lemma RepliesAreRepairedExactly(c: Conversation, s: Setting, d: Conversation)
    requires Valid(c, s) && StartsPlain(c) && SignaturesKept(c, s) && Earlier(d, c) && d.Next?
    ensures SentExactly(c, s, d)
  {
    hide Valid, Turn, Pre, AsRecorded, Complete, RepairFrom, RecordedUnder, Contexts, Normalized, SignaturesKept,
      Earlier, StartsPlain;
    SignaturesHoldTheirTexts(c, s, d);
    PlainStartStaysComplete(c, s);
    CompleteTurnIsUntroubled(c, s);
    EarlierIsValid(c, s, d);
    EchoedIsPlain(d, s);
    PreIsSettled(d.before, s);
    var prefix, echoed := Pre(d.before, s), Echoed(d, s);
    var i := SplitAtEcho(c, s, d);
    var rest := Pre(c, s)[i..];
    EchoIsRepaired(prefix, echoed, rest, s.namespace, c.world.cache);
  }

  lemma EchoedIsPlain(d: Conversation, s: Setting)
    requires d.Next? && Valid(d, s)
    ensures Valid(d.before, s)
    ensures var echoed := Echoed(d, s);
      && Settled(echoed) && echoed.role == Assistant && echoed.reasoning == Absent
      && MessageSignature(echoed) == MessageSignature(AsRecorded(d.before, d.reply, s))
  {
    EchoRestoresSignature(AsRecorded(d.before, d.reply, s), s.display);
  }

  lemma SplitAtEcho(c: Conversation, s: Setting, d: Conversation) returns (i: nat)
    requires Earlier(d, c) && d.Next?
    ensures var prefix := Pre(d.before, s);
      && i == |prefix| + 1 && i <= |Pre(c, s)| && Pre(c, s)[..|prefix|] == prefix
      && Pre(c, s) == prefix + [Echoed(d, s)] + Pre(c, s)[i..]
  {
    i := |Pre(d.before, s)| + 1;
    PreGrows(d, s);
    EarlierIsPrefix(d, c, s);
    assert Pre(c, s)[..i] == Pre(d, s)[..i] == Pre(d.before, s) + [Echoed(d, s)];
    assert Pre(c, s)[..i - 1] == Pre(c, s)[..i][..i - 1];
  }

  lemma EchoIsRepaired(prefix: seq<Message>, echoed: Message, rest: seq<Message>, namespace: Namespace, cache: Cache)
    requires AllSettled(prefix) && Settled(echoed) && echoed.role == Assistant && echoed.reasoning == Absent
    requires Scoped(ConversationScope(prefix, namespace), MessageSignature(echoed)) in cache
    ensures var sent := Repair(prefix + [echoed] + rest, namespace, cache).messages;
      var text := cache[Scoped(ConversationScope(prefix, namespace), MessageSignature(echoed))];
      |sent| > |prefix|
      && sent[|prefix|] == echoed.(reasoning := if InToolTurn(echoed, prefix) then Thought(text) else Absent)
  {
    RepairAt(prefix, echoed, rest, namespace, cache);
    var first := Repair(prefix, namespace, cache);
    RepairsOnlyReasoning(prefix, namespace, cache);
    RepairKeepsScopedKeys([], prefix, namespace, cache);
    SameHistorySameKeys(echoed, namespace, first.messages, prefix);
    SignatureHitsFirst(first.cache, echoed, namespace, prefix);
    hide RepairFrom, InToolTurn, FirstHit, KeyFamily, ConversationScope;
    assert Bared(echoed) == echoed;
  }

  lemma SignatureHitsFirst(cache: Cache, message: Message, namespace: Namespace, prior: seq<Message>)
    requires Scoped(ConversationScope(prior, namespace), MessageSignature(message)) in cache
    ensures Lookup(cache, message, namespace, prior)
         == Some(cache[Scoped(ConversationScope(prior, namespace), MessageSignature(message))])
  {
    assert KeyFamily(message, namespace, prior)[0]
        == Scoped(ConversationScope(prior, namespace), Selectors(message)[0]);
  }

  lemma {:induction false} EarlierIsValid(c: Conversation, s: Setting, d: Conversation)
    requires Valid(c, s) && Earlier(d, c)
    ensures Valid(d, s)
  {
    if d != c { EarlierIsValid(c.before, s, d); }
  }
}
