/** Conversations such as the theorems assume do exist. */
module Witnesses {
  import opened Options
  import opened ThinkingBlocks
  import opened Transcript
  import opened Keys
  import opened ReasoningCache
  import opened Normalize
  import opened Recovery
  import opened Rounds
  import opened Prepare
  import opened Response
  import opened RepairFacts
  import opened Conversations
  import opened StickyRecovery
  import opened Stream
  import opened Deltas
  import opened Resplitting
  import opened Staging
  import opened Notice
  import opened SseStream
  import opened StreamRoundTrip
  import opened StreamedConversations

  function SomeSetting(): Setting {
    Setting(Namespace("", "", Enabled("high"), None), None)
  }

  /** A user message, and an assistant message that calls a tool and has lost its reasoning. */
  function Question(): Message {
    Message(User, None, None, None, [], Absent, None)
  }

  function LostCall(): Message {
    Message(Assistant, None, None, None, [ToolCall("", "function", "", Raw(""))], Absent, None)
  }

  function Reply(): Message {
    Message(Assistant, Some(Text("")), None, None, [], Thought("r"), None)
  }

  lemma ClearTextEchoes(message: Message, text: string)
    requires message.role == Assistant && message.content == Some(Text(text))
    requires HasNoBlock(text) && SkipNewlines(text) == text
    ensures EchoesClean(message, None)
  {
    hide HasNoBlock, SkipNewlines, SkipSpace;
  }

  lemma ReplyEchoesClean()
    ensures EchoesClean(Reply(), None) && EchoesClean(WithPrefix(Reply(), RecoveryNoticeContent()), None)
  {
    hide RecoveryNoticeContent, RemoveBlocks, EchoesClean;
    var text := RecoveryNoticeContent();
    NoticeIsPlainText();
    PlainTextStays(text);
    RemoveNothing();
    assert SkipNewlines(text) == text && text + "" == text;
    ClearTextEchoes(WithPrefix(Reply(), text), text);
    assert EchoesClean(WithPrefix(Reply(), RecoveryNoticeContent()), None);
    ClearTextEchoes(Reply(), "");
    assert EchoesClean(Reply(), None);
  }

  // ---------------------------------------------------------------- a conversation that starts plainly

  /** A conversation to which `EveryTurnIsRepaired` and `RepliesAreRepairedExactly` apply, with a reply in it. */
  lemma PlainConversationExists() returns (c: Conversation)
    ensures c.Next? && Valid(c, SomeSetting()) && StartsPlain(c) && SignaturesKept(c, SomeSetting()) && Earlier(c, c)
  {
    hide Turn, EchoesClean, CacheAfterTurn, StripsClean, SignatureKey, Normalized, Echo;
    var s := SomeSetting();
    var root := Begin([Question()], World(map[], {}));
    OthersStripClean([Question()]);
    ReplyEchoesClean();
    c := Next(root, Reply(), Echo(AsRecorded(root, Reply(), s), s.display), [],
              World(CacheAfterTurn(root, Reply(), s), {}));
    assert EchoesClean(AsRecorded(root, Reply(), s), s.display);
    assert Valid(root, s) && Valid(c, s);
    assert SignaturesKept(root, s) && SignaturesKept(c, s);
    assert Root(c) == root;
  }

  // ---------------------------------------------------------------- a conversation that starts with a recovery

  lemma {:induction false} EmptyCacheStaysEmpty(done: seq<Message>, rest: seq<Message>, namespace: Namespace)
    ensures RepairFrom(done, rest, namespace, map[]).cache == map[]
    decreases |rest|
  {
    if rest != [] {
      NothingInEmptyCache(Bared(Normalized(rest[0], true)), namespace, done);
      hide RepairedMessage, FirstHit, KeyFamily, NeedsRepair;
      EmptyCacheStaysEmpty(done + [RepairedMessage(rest[0], done, namespace, map[])], rest[1..], namespace);
    }
  }

  /** An assistant message that calls tools and has no reasoning. */
  ghost predicate IsLost(message: Message) {
    message.role == Assistant && message.toolCalls != [] && message.reasoning == Absent && Settled(message)
  }

  /** An empty cache restores no lost call, wherever it stands. */
  lemma LostIsMissed(before: seq<Message>, lost: Message, rest: seq<Message>, namespace: Namespace)
    requires IsLost(lost)
    ensures Violations(Repair(before + [lost] + rest, namespace, map[]).messages) != []
  {
    hide RepairFrom, Violations, FirstHit, KeyFamily;
    var sent := Repair(before + [lost] + rest, namespace, map[]).messages;
    var first := Repair(before, namespace, map[]);
    RepairAt(before, lost, rest, namespace, map[]);
    EmptyCacheStaysEmpty([], before, namespace);
    NothingInEmptyCache(lost, namespace, first.messages);
    assert sent[|before|] == lost;
    ViolationsAreExact(sent);
    assert Violates(sent, |before|);
    assert |before| in Violations(sent);
  }

  /** A turn that opens with a lost call, before and after continuing from a notice, has gaps. */
  lemma OpeningHasGaps(pre: seq<Message>, lost: Message, namespace: Namespace, seen: set<Scope>, before: seq<Message>,
                       rest: seq<Message>, beforeInForm: seq<Message>, restInForm: seq<Message>)
    requires IsLost(lost) && pre == before + [lost] + rest
    requires LastNotice(pre) != -1 ==> FromBoundary(pre, LastNotice(pre)) == beforeInForm + [lost] + restInForm
    ensures Violations(Opening(pre, namespace, Recover, map[], seen).messages) != []
  {
    hide RepairFrom, Violations, FromBoundary, LastNotice;
    LostIsMissed(before, lost, rest, namespace);
    LostIsMissed(beforeInForm, lost, restInForm, namespace);
    EmptyCacheStaysEmpty([], pre, namespace);
  }

  lemma LostCallIsLost()
    ensures IsLost(LostCall())
  {
  }

  lemma RootRecovers()
    ensures var root := Begin([LostCall(), Question()], World(map[], {}));
      Valid(root, SomeSetting()) && Turn(root, SomeSetting()).notice
  {
    hide Drain, RepairFrom, Violations, Opening, IsLost, LostCall, Question;
    var s, opening := SomeSetting(), [LostCall(), Question()];
    var root := Begin(opening, World(map[], {}));
    OpeningIsSettled();
    assert Pre(root, s) == opening;
    LostCallIsLost();
    assert [] + [LostCall()] + [Question()] == opening;
    OpeningHasGaps(opening, LostCall(), s.namespace, {}, [], [Question()], [], []);
    NoticeExactly(opening, s.namespace, map[], {});
  }

  lemma OpeningIsSettled()
    ensures NormalizedAll([LostCall(), Question()], true) == [LostCall(), Question()]
    ensures AllSettled([LostCall(), Question()]) && AllStripClean([LostCall(), Question()])
    ensures LastUser([LostCall(), Question()]) != -1 && LastNotice([LostCall(), Question()]) == -1
  {
    var opening := [LostCall(), Question()];
    assert Normalized(LostCall(), true) == LostCall() && Normalized(Question(), true) == Question();
    assert opening[1].role == User;
    assert !HasRecoveryNotice(opening[0]) && !HasRecoveryNotice(opening[1]);
    assert forall i :: 0 <= i < |opening| ==> opening[i] == LostCall() || opening[i] == Question();
  }

  /** A conversation to which `RecoverySticks` applies, with a turn after the one that recovers. */
  lemma RecoveredConversationExists() returns (c: Conversation)
    ensures c.Next? && Valid(c, SomeSetting()) && StartsRecovered(c, SomeSetting()) && LaterRepliesArePlain(c)
  {
    var s := SomeSetting();
    var root := Begin([LostCall(), Question()], World(map[], {}));
    hide Turn, EchoesClean, RecordedUnder, Contexts;
    RootRecovers();
    ReplyEchoesClean();
    c := Next(root, Reply(), Echo(AsRecorded(root, Reply(), s), s.display), [],
              World(CacheAfterTurn(root, Reply(), s), {}));
    assert Root(c) == root;
  }

  // ---------------------------------------------------------------- a recovery message sent twice

  /** A lost call whose text is the notice. */
  function NoticedCall(): Message {
    LostCall().(content := Some(Text(RecoveryNoticeContent())))
  }

  lemma NoticeStaysAsItIs()
    ensures StripThinkingBlocks(RecoveryNoticeContent()) == RecoveryNoticeContent()
      && RecoveryNoticeText() <= RecoveryNoticeContent()
  {
    hide RecoveryNoticeContent, RecoveryNoticeText, StripThinkingBlocks, HasNoBlock;
    NoticeIsPlainText();
    PlainTextStays(RecoveryNoticeContent());
    NoticeBegins();
  }

  lemma NoticeBegins()
    ensures RecoveryNoticeText() <= RecoveryNoticeContent()
  {
    hide RecoveryNoticeText;
  }

  lemma NoticedCallIsLost()
    ensures IsLost(NoticedCall()) && HasRecoveryNotice(NoticedCall())
  {
    hide StripThinkingBlocks, RecoveryNoticeContent, RecoveryNoticeText;
    NoticeStaysAsItIs();
  }

  /** A turn that continues from a notice and must fall back all the same sends the recovery message twice. */
  lemma DoubledRecoveryExists()
    ensures var pre, s := [NoticedCall(), Question()], SomeSetting();
      var turn := Turn(Begin(pre, World(map[], {})), s);
      && AllSettled(pre) && LastNotice(pre) == 0 && turn.notice
      && turn.steps == [ContinuedBoundary, LatestUser]
      && turn.messages == [RecoverySystemMessage(), RecoverySystemMessage(), Question()]
  {
    hide Turn, Drain, Opening, IsLost, NoticedCall, Question, RecoverySystemMessage, LastNotice, AllSettled,
      ConversationScope;
    NoticedOpening();
    DoubledRecovery();
    TurnIsDrained(Begin([NoticedCall(), Question()], World(map[], {})), SomeSetting());
  }

  lemma DoubledRecovery()
    ensures var pre, namespace := [NoticedCall(), Question()], SomeSetting().namespace;
      var turn := Drain(Opening(pre, namespace, Recover, map[], {}), namespace, ConversationScope(pre, namespace));
      && turn.notice && turn.steps == [ContinuedBoundary, LatestUser]
      && turn.messages == [RecoverySystemMessage(), RecoverySystemMessage(), Question()]
  {
    hide Drain, RepairFrom, Violations, Opening, IsLost, NoticedCall, Question, RecoverySystemMessage, FromBoundary,
      LastUser, LastNotice, LeadingSystem, AllSettled, Canonical, TurnContext, ConversationScope, SomeSetting,
      NormalizedAll;
    var namespace, pre := SomeSetting().namespace, [NoticedCall(), Question()];
    NoticedOpening();
    assert [] + [NoticedCall()] + [Question()] == pre;
    OpeningHasGaps(pre, NoticedCall(), namespace, {}, [], [Question()], [RecoverySystemMessage()], [Question()]);
    NoticeExactly(pre, namespace, map[], {});
    AnchorIsRecorded(pre, namespace, map[], {});
    assert [ContinuedBoundary] + [LatestUser] == [ContinuedBoundary, LatestUser];
  }

  lemma NoticedOpening()
    ensures var pre := [NoticedCall(), Question()];
      && NormalizedAll(pre, true) == pre && AllSettled(pre) && IsLost(NoticedCall())
      && LastUser(pre) == 1 && LastNotice(pre) == 0 && LeadingSystem(pre) == []
      && FromBoundary(pre, 0) == [RecoverySystemMessage()] + [NoticedCall()] + [Question()]
  {
    hide NoticedCall, RecoverySystemMessage, LastUser, LastNotice, LeadingSystem, FromBoundary, HasRecoveryNotice;
    NoticedCallIsLost();
    assert Settled(Question()) && Question().role == User;
    NoticeThenUser(NoticedCall(), Question());
  }

  lemma NoticeThenUser(call: Message, user: Message)
    requires HasRecoveryNotice(call) && user.role == User
    ensures var pre := [call, user];
      && LastUser(pre) == 1 && LastNotice(pre) == 0 && LeadingSystem(pre) == []
      && FromBoundary(pre, 0) == [RecoverySystemMessage()] + [call] + [user]
  {
    hide RecoverySystemMessage;
    var pre := [call, user];
    assert !HasRecoveryNotice(pre[1]) && HasRecoveryNotice(pre[0]) && pre[1].role == User;
    assert pre[..0] == [] && pre[0..] == pre;
  }

  // ---------------------------------------------------------------- a notice shown twice

  function CallReply(): Message {
    Message(Assistant, Some(Text("")), None, None, LostCall().toolCalls, Thought("r"), None)
  }

  /** A conversation that shows the notice twice: the cache has lost what the first reply left, and the memory of
      shown notices holds the first transcript only. */
  lemma NoticeShownTwice() returns (c: Conversation)
    ensures var s := SomeSetting();
      && c.Next? && c.before.Begin? && c.sentBack == Echo(AsRecorded(c.before, c.reply, s), s.display)
      && Turn(c.before, s).notice && c.world.seen == Turn(c.before, s).seen && Turn(c, s).notice
  {
    hide Turn, IsLost, LostCall, Question, NoticedCall;
    var s, root := SomeSetting(), Begin([LostCall(), Question()], World(map[], {}));
    RootRecovers();
    CallIsEchoed();
    c := Next(root, CallReply(), Echo(AsRecorded(root, CallReply(), s), s.display), [],
              World(map[], Turn(root, s).seen));
    assert Conversations.Sent(c, s) == [LostCall(), Question(), NoticedCall()];
    RootIsRemembered();
    SecondNotice(Turn(root, s).seen);
    TurnIsDrained(c, s);
  }

  lemma TurnIsDrained(c: Conversation, s: Setting)
    ensures var pre := Pre(c, s);
      Turn(c, s)
        == Drain(Opening(pre, s.namespace, Recover, c.world.cache, c.world.seen), s.namespace,
                 ConversationScope(pre, s.namespace))
  {
  }

  /** What comes back of a reply with a call and the notice is a lost call. */
  lemma CallIsEchoed()
    ensures Echo(WithPrefix(CallReply(), RecoveryNoticeContent()), None) == NoticedCall()
  {
    assert RecoveryNoticeContent() + "" == RecoveryNoticeContent();
  }

  lemma RootIsRemembered()
    ensures var root := Begin([LostCall(), Question()], World(map[], {}));
      forall scope <- Turn(root, SomeSetting()).seen :: |scope.messages| == 2
  {
    hide Drain, Opening, LostCall, Question;
    var s, opening := SomeSetting(), [LostCall(), Question()];
    OpeningIsSettled();
    RootRecovers();
    NoticeIsRemembered(opening, s.namespace, map[], {});
    assert |ConversationScope(opening, s.namespace).messages| == 2;
  }

  lemma SecondNotice(seen: set<Scope>)
    requires forall scope <- seen :: |scope.messages| == 2
    ensures var pre, namespace := [LostCall(), Question(), NoticedCall()], SomeSetting().namespace;
      && NormalizedAll(pre, true) == pre
      && Drain(Opening(pre, namespace, Recover, map[], seen), namespace, ConversationScope(pre, namespace)).notice
  {
    hide Drain, Opening, Violations, IsLost;
    var pre, namespace := [LostCall(), Question(), NoticedCall()], SomeSetting().namespace;
    SecondOpening();
    NoticedCallIsLost();
    assert [LostCall(), Question()] + [NoticedCall()] + [] == pre;
    OpeningHasGaps(pre, NoticedCall(), namespace, seen, [LostCall(), Question()], [],
                   [RecoverySystemMessage(), Question()], []);
    LaterTurnsAreNotRemembered(pre, namespace, map[], seen);
  }

  lemma SecondOpening()
    ensures var pre := [LostCall(), Question(), NoticedCall()];
      && NormalizedAll(pre, true) == pre && AllSettled(pre) && LastUser(pre) != -1 && LastNotice(pre) == 2
      && FromBoundary(pre, 2) == [RecoverySystemMessage(), Question()] + [NoticedCall()] + []
  {
    hide NoticedCall, RecoverySystemMessage, LastUser, LastNotice, LeadingSystem, FromBoundary, HasRecoveryNotice;
    NoticedCallIsLost();
    assert Settled(Question()) && Settled(LostCall());
    NoticeAfterUser(LostCall(), Question(), NoticedCall());
  }

  lemma NoticeAfterUser(lost: Message, user: Message, call: Message)
    requires lost.role == Assistant && user.role == User && HasRecoveryNotice(call)
    ensures var pre := [lost, user, call];
      && LastUser(pre) != -1 && LastNotice(pre) == 2
      && FromBoundary(pre, 2) == [RecoverySystemMessage(), user] + [call] + []
  {
    hide RecoverySystemMessage;
    var pre := [lost, user, call];
    assert LeadingSystem(pre) == [] && HasRecoveryNotice(pre[2]) && pre[1].role == User;
    assert pre[..2] == [lost, user] && pre[2..] == [call];
    assert pre[..2][1].role == User && LastUser(pre[..2]) == 1;
  }

  // ---------------------------------------------------------------- a recovery whose reply is streamed

  function ReplyPart(): ChunkChoice {
    ChunkChoice(0, None, Delta(Assistant, Str(""), Some("r"), []))
  }

  function ReplyLines(): seq<Line> {
    [Event([ReplyPart()], true), Done]
  }

  lemma ReplyStreamIsReply()
    ensures PartsOf(ReplyLines(), 0) == [ReplyPart()] && UpstreamMessage(ReplyLines(), 0) == Reply()
    ensures AnyReasoning([ReplyPart()]) && AssistantSpeaks([ReplyPart()])
  {
    var raws := [ReplyPart()];
    assert ReplyLines()[1..] == [Done] && raws[1..] == [] && raws[..0] == [];
    assert PartsFor(raws, 0) == raws;
    assert Contents(raws) == "" && Reasonings(raws) == "r" && CallsOf(raws) == [] && LastRole(raws) == Assistant;
  }

  lemma ReplyStreamTakesNotice(notice: string)
    ensures Taker(ReplyLines(), SseState({}, Some(notice)), None, true) == Some(0)
    ensures ReachesDone(ReplyLines()) && AllHonest(ReplyLines())
    ensures ShortcutSkipsNoText(ReplyLines(), SseState({}, Some(notice)), None, 0)
  {
    var lines := ReplyLines();
    assert lines[1].Done? && lines[1..] == [Done];
    assert CanCarry([ReplyPart()][0]);
  }

  lemma ReplyStreamIsRecorded(notice: string)
    requires |notice| < 1000
    ensures BelowTheLimit(Recorded(ReplyLines(), SseState({}, Some(notice)), None, 0))
  {
    ReplyStreamIsReply();
    ReplyStreamTakesNotice(notice);
    assert [ReplyPart()][1..] == [];
    ShortStreamsStayBelow(ReplyLines(), Some(notice), None, 0);
  }

  lemma {:induction false} RecordedIsKept(cache: Cache, index: int, choice: StreamingChoice, contexts: seq<Context>,
                                          namespace: Namespace)
    ensures var after := RecordedUnder(cache, ToMessage(choice), contexts, namespace);
      cache.Keys <= after.Keys && KeptUnder(after, index, choice, contexts, namespace)
  {
    hide Kept, ToMessage, Flushed;
    var pending := PendingFor(ToMessage(choice), index, contexts, namespace);
    FlushingIsRecording(cache, ToMessage(choice), index, contexts, namespace);
    forall c | c in contexts ensures Kept(Flushed(cache, pending), EntryFor(index, choice, c, namespace)) {
      var k :| 0 <= k < |contexts| && contexts[k] == c;
      assert pending[k] == EntryFor(index, choice, c, namespace);
      FlushingKeeps(cache, pending, pending[k]);
    }
    RecordedUnderGrows(cache, ToMessage(choice), contexts, namespace);
  }

  /** A recovering turn whose streamed reply takes the notice, and to which `StreamedRecoverySticks` applies. */
  lemma StreamedRecoveryExists() returns (before: Conversation, after: Cache)
    ensures var s, lines, world := SomeSetting(), ReplyLines(), World(after, {});
      && Valid(before, s) && StartsRecovered(before, s) && StreamedTurn(before, s, lines, 0, after)
      && !LosesSpace(lines, Turn(before, s).notice, s.display, 0)
      && LaterRepliesArePlain(Streamed(before, s, lines, 0, [], world))
  {
    var s := SomeSetting();
    before := Begin([LostCall(), Question()], World(map[], {}));
    hide Turn, EchoesClean, RecordedUnder, Contexts, Kept, KeptUnder, Recorded, RecoveryNoticeContent, UpstreamMessage,
      PartsOf, Taker, AnyReasoning, AssistantSpeaks, ShortcutSkipsNoText, BelowTheLimit, ReachesDone, AllHonest;
    RootRecovers();
    ReplyEchoesClean();
    ReplyStreamIsReply();
    NoticeIsPlainText();
    NoticeIsShort();
    ReplyStreamTakesNotice(RecoveryNoticeContent());
    ReplyStreamIsRecorded(RecoveryNoticeContent());
    var choice, contexts := Recorded(ReplyLines(), StartOf(before, s), None, 0), ContextsOf(before, s);
    after := RecordedUnder(Turn(before, s).cache, ToMessage(choice), contexts, s.namespace);
    RecordedIsKept(Turn(before, s).cache, 0, choice, contexts, s.namespace);
    assert Root(before) == before;
  }

  lemma NoticeIsShort()
    ensures |RecoveryNoticeContent()| < 1000
  {
  }
}
