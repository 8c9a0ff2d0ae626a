/**
 Recovery sticks: once a turn has fallen back to its latest user message and its reply carries the notice,
 every later turn of the conversation can be continued from that notice without a further cut.
 */
module StickyRecovery {
  import opened Transcript
  import opened Keys
  import opened ReasoningCache
  import opened Normalize
  import opened Recovery
  import opened Rounds
  import opened Selection
  import opened Prepare
  import opened Response
  import opened RepairFacts
  import opened Conversations

  // ---------------------------------------------------------------- the turn that recovers

  /** What later boundary forms start with: the leading system messages, the recovery message, the latest user
      message. */
  ghost function AnchorHead(pre: seq<Message>): seq<Message>
    requires LastUser(pre) != -1
  {
    LeadingSystem(pre) + [RecoverySystemMessage(), pre[LastUser(pre)]]
  }

  lemma ContinuedOpeningIsSound(pre: seq<Message>, namespace: Namespace, cache: Cache)
    requires AllSettled(pre) && ActiveFromBoundary(pre).Some?
    ensures var opening := Repair(ActiveFromBoundary(pre).value.messages, namespace, cache).messages;
      && LastNotice(pre) != -1 && ActiveFromBoundary(pre).value.messages == FromBoundary(pre, LastNotice(pre))
      && Sound(pre, opening, Violations(opening)) && NoBoundaryToCutAt(opening, Violations(opening))
      && SameOthers(FromBoundary(pre, LastNotice(pre)), opening)
  {
    var b := LastNotice(pre);
    var active := FromBoundary(pre, b);
    var second := Repair(active, namespace, cache).messages;
    hide KeepsEnds, Violations, NoBoundaryToCutAt, LastUser, FromBoundary, Conserves;
    BoundaryFormIsSettled(pre, b);
    BoundaryConserves(pre, b);
    RepairsOnlyReasoning(active, namespace, cache);
    assert NormalizedAll(active, true) == active;
    SettledInForm(pre);
    ComesFromItself(pre);
    NextPassIsSound(pre, pre, active, Retired(pre, b), KeptAtBoundary(pre, b), second, PatchCount(active, second),
                    Violations(second));
    NormalizingKeepsOthers(active, second);
    MissingAreAssistants(second);
    OpeningOffersNoBoundary(pre, second, true, Violations(second));
  }

  lemma OpeningIsSound(pre: seq<Message>, namespace: Namespace, cache: Cache, seen: set<Scope>)
    requires AllSettled(pre)
    ensures var opening := Opening(pre, namespace, Recover, cache, seen);
      && Sound(pre, opening.messages, Violations(opening.messages))
      && !opening.notice && opening.dropped == 0 && opening.seen == seen
      && (Violations(opening.messages) != [] ==> NoBoundaryToCutAt(opening.messages, Violations(opening.messages)))
      && (opening.steps == [] ==> SameOthers(pre, opening.messages))
      && (opening.steps != [] ==>
           LastNotice(pre) != -1 && SameOthers(FromBoundary(pre, LastNotice(pre)), opening.messages))
      && (opening.steps == [] || opening.steps == [ContinuedBoundary])
  {
    hide KeepsEnds, OthersSettled, Violations, NoBoundaryToCutAt, LastUser, LastNotice, FromBoundary;
    var first := Repair(pre, namespace, cache);
    RepairsOnlyReasoning(pre, namespace, cache);
    var missing := Violations(first.messages);
    assert NormalizedAll(pre, true) == pre;
    SettledInForm(pre);
    FirstPassIsSound(pre, first.messages, PatchCount(pre, first.messages), missing);
    NormalizingKeepsOthers(pre, first.messages);
    MissingAreAssistants(first.messages);
    if missing != [] {
      if ActiveFromBoundary(pre).Some? {
        ContinuedOpeningIsSound(pre, namespace, first.cache);
      } else {
        OpeningOffersNoBoundary(pre, first.messages, false, missing);
      }
    }
  }

  lemma RepairKeepsOthersExactly(messages: seq<Message>, namespace: Namespace, cache: Cache)
    requires OthersSettled(messages) && OnlyOthers(messages)
    ensures Repair(messages, namespace, cache).messages == messages
  {
    RepairShape([], messages, namespace, cache);
    var r := Repair(messages, namespace, cache).messages;
    assert r[0..] == r;
    forall i | 0 <= i < |messages| ensures r[i] == messages[i] {
      assert Settled(messages[i]) && OnlyReasoningDiffers(r[i], NormalizedAll(messages, true)[i]);
    }
  }

  lemma LatestUserFormIsOthers(messages: seq<Message>, user: nat)
    requires user < |messages| && messages[user].role == User && OthersSettled(messages)
    ensures OnlyOthers(FromLatestUser(messages, user)) && OthersSettled(FromLatestUser(messages, user))
  {
    var cut, lead := FromLatestUser(messages, user), LeadingSystem(messages);
    forall i | 0 <= i < |cut| ensures cut[i].role != Assistant && Settled(cut[i]) {
      if i < |lead| { assert cut[i] == messages[i]; }
      else if i == |lead| { assert cut[i] == RecoverySystemMessage(); }
      else { assert cut[i] == messages[user]; }
    }
  }

  /** A turn that carries a notice sent the latest user message behind system messages only. */
  lemma NoticeMeansLatestUser(pre: seq<Message>, namespace: Namespace, cache: Cache, seen: set<Scope>)
    requires AllSettled(pre)
    requires Drain(Opening(pre, namespace, Recover, cache, seen), namespace, ConversationScope(pre, namespace)).notice
    ensures var opening := Opening(pre, namespace, Recover, cache, seen);
      var turn := Drain(opening, namespace, ConversationScope(pre, namespace));
      && LastUser(pre) != -1 && LastUser(opening.messages) != -1
      && opening.messages[LastUser(opening.messages)] == pre[LastUser(pre)]
      && turn.messages == FromLatestUser(opening.messages, LastUser(opening.messages))
      && turn.steps == opening.steps + [LatestUser]
  {
    var opening, scope := Opening(pre, namespace, Recover, cache, seen), ConversationScope(pre, namespace);
    OpeningIsSound(pre, namespace, cache, seen);
    NoUserLeft(pre, opening.messages);
    OneCutDrains(opening, namespace, scope);
  }

  /** A turn carries a notice exactly when its opening state has gaps, there is a user message to fall back to, and
      the notice was not shown for this transcript before. */
  lemma NoticeExactly(pre: seq<Message>, namespace: Namespace, cache: Cache, seen: set<Scope>)
    requires AllSettled(pre)
    ensures Drain(Opening(pre, namespace, Recover, cache, seen), namespace, ConversationScope(pre, namespace)).notice
      <==> (Violations(Opening(pre, namespace, Recover, cache, seen).messages) != [] && LastUser(pre) != -1
            && ConversationScope(pre, namespace) !in seen)
  {
    hide Opening, Drain, AfterCut, CutBack, Violations, OthersSettled, KeepsEnds, ComesFrom, AllInForm,
      NoBoundaryToCutAt, FromLatestUser, SameOthers, FromBoundary, LastUser;
    var opening, scope := Opening(pre, namespace, Recover, cache, seen), ConversationScope(pre, namespace);
    OpeningIsSound(pre, namespace, cache, seen);
    if Violations(opening.messages) == [] {
      NothingToDrain(opening, namespace, scope);
    } else {
      OneCutDrains(opening, namespace, scope);
      KeepsNoUser(pre, opening.messages);
    }
  }

  /** The same transcript, sent again, does not show the notice again. */
  lemma SameTranscriptShowsOnce(pre: seq<Message>, namespace: Namespace, cache: Cache, seen: set<Scope>, later: Cache)
    requires AllSettled(pre)
    requires Drain(Opening(pre, namespace, Recover, cache, seen), namespace, ConversationScope(pre, namespace)).notice
    ensures var after := Drain(Opening(pre, namespace, Recover, cache, seen), namespace,
                               ConversationScope(pre, namespace)).seen;
      !Drain(Opening(pre, namespace, Recover, later, after), namespace, ConversationScope(pre, namespace)).notice
  {
    hide Opening, Drain, SeenAfter, AllSettled, ConversationScope, Violations, LastUser;
    NoticeIsRemembered(pre, namespace, cache, seen);
    SeenAfterRemembers(seen, ConversationScope(pre, namespace));
    NoticeExactly(pre, namespace, later,
                  Drain(Opening(pre, namespace, Recover, cache, seen), namespace,
                        ConversationScope(pre, namespace)).seen);
  }

  lemma NothingToDrain(p: Progress, namespace: Namespace, scope: Scope)
    requires Violations(p.messages) == []
    ensures Drain(p, namespace, scope) == p
  {
  }

  lemma KeepsNoUser(pre: seq<Message>, messages: seq<Message>)
    requires KeepsEnds(pre, messages)
    ensures LastUser(messages) == -1 <==> LastUser(pre) == -1
  {
    hide LastUser, LeadingSystem;
  }

  /** The transcript of a turn that carries a notice is remembered. */
  lemma NoticeIsRemembered(pre: seq<Message>, namespace: Namespace, cache: Cache, seen: set<Scope>)
    requires AllSettled(pre)
    requires Drain(Opening(pre, namespace, Recover, cache, seen), namespace, ConversationScope(pre, namespace)).notice
    ensures Drain(Opening(pre, namespace, Recover, cache, seen), namespace, ConversationScope(pre, namespace)).seen
         == SeenAfter(seen, ConversationScope(pre, namespace))
  {
    hide Opening, Drain, AfterCut, CutBack, Violations, OthersSettled, KeepsEnds, ComesFrom, AllInForm,
      NoBoundaryToCutAt, FromLatestUser, SameOthers, FromBoundary, LastUser;
    var opening, scope := Opening(pre, namespace, Recover, cache, seen), ConversationScope(pre, namespace);
    OpeningIsSound(pre, namespace, cache, seen);
    NoticeExactly(pre, namespace, cache, seen);
    KeepsNoUser(pre, opening.messages);
    OneCutDrains(opening, namespace, scope);
  }

  /** When there is no boundary to cut at, draining is at most one cut. */
  lemma OneCutDrains(p: Progress, namespace: Namespace, scope: Scope)
    requires OthersSettled(p.messages) && Violations(p.messages) != []
    requires NoBoundaryToCutAt(p.messages, Violations(p.messages))
    ensures var cut := CutBack(p.messages, Violations(p.messages));
      if LastUser(p.messages) == -1 then Drain(p, namespace, scope) == p.(steps := p.steps + [NoUser])
      else cut.strategy == LatestUser && cut.notice && Drain(p, namespace, scope) == AfterCut(p, cut, namespace, scope)
           && Drain(p, namespace, scope).messages == FromLatestUser(p.messages, LastUser(p.messages))
           && Drain(p, namespace, scope).notice == (p.notice || scope !in p.seen)
           && Drain(p, namespace, scope).seen == SeenAfter(p.seen, scope)
  {
    var missing := Violations(p.messages);
    var cut := CutBack(p.messages, missing);
    MissingAreAssistants(p.messages);
    assert missing[0] in missing;
    CutMakesProgress(p.messages, missing);
    var user := LastUser(p.messages);
    if user != -1 {
      LatestUserFormIsOthers(p.messages, user);
      RepairKeepsOthersExactly(cut.messages, namespace, p.cache);
      NoAssistants(cut.messages);
      NoAssistantsNoViolations(cut.messages);
    }
  }

  lemma {:induction false} WithoutSystemOfSystems(systems: seq<Message>, user: Message)
    requires forall i :: 0 <= i < |systems| ==> systems[i].role == System
    requires user.role == User
    ensures TurnContext(systems + [user]) == [Canonical(user)]
  {
    var all := systems + [user];
    LastUserIs(all, |systems|);
    assert systems != [] ==> all[|systems| - 1].role == System;
    assert TurnStart(all) == |systems|;
    assert all[|systems|..] == [user];
    assert WithoutSystem([user]) == [user] + WithoutSystem([user][1..]);
  }

  /** An opening with gaps has continued from a notice exactly when there is one. */
  lemma GapsAfterContinuing(pre: seq<Message>, namespace: Namespace, cache: Cache, seen: set<Scope>)
    requires Violations(Opening(pre, namespace, Recover, cache, seen).messages) != []
    ensures Opening(pre, namespace, Recover, cache, seen).steps
         == if LastNotice(pre) == -1 then [] else [ContinuedBoundary]
  {
    hide FromBoundary, Violations, RepairFrom;
  }

  /** What the recovering turn sent: the recovery message and the latest user message; with the recovery message
      twice if and only if its transcript had a notice already. Its turn is the turn of what later boundary forms
      start with, and so is its scope, if and only if the recovery message was sent once. */
  lemma AnchorIsRecorded(pre: seq<Message>, namespace: Namespace, cache: Cache, seen: set<Scope>)
    requires AllSettled(pre)
    requires Drain(Opening(pre, namespace, Recover, cache, seen), namespace, ConversationScope(pre, namespace)).notice
    ensures LastUser(pre) != -1
    ensures var turn := Drain(Opening(pre, namespace, Recover, cache, seen), namespace,
                              ConversationScope(pre, namespace));
      && turn.messages == LeadingSystem(pre) + (if LastNotice(pre) == -1 then [] else [RecoverySystemMessage()])
                          + [RecoverySystemMessage(), pre[LastUser(pre)]]
      && turn.steps == (if LastNotice(pre) == -1 then [] else [ContinuedBoundary]) + [LatestUser]
      && TurnContext(turn.messages) == TurnContext(AnchorHead(pre)) == [Canonical(pre[LastUser(pre)])]
      && (LastNotice(pre) == -1 <==>
            ConversationScope(turn.messages, namespace) == ConversationScope(AnchorHead(pre), namespace))
  {
    hide Opening, Drain, TurnContext, Violations, NoBoundaryToCutAt, Sound, AllSettled, LastUser, LastNotice,
      LeadingSystem, RecoverySystemMessage, SameOthers, FromBoundary, Canonical;
    NoticeMeansLatestUser(pre, namespace, cache, seen);
    NoticeExactly(pre, namespace, cache, seen);
    GapsAfterContinuing(pre, namespace, cache, seen);
    OpeningIsSound(pre, namespace, cache, seen);
    var opening := Opening(pre, namespace, Recover, cache, seen);
    var turn := Drain(opening, namespace, ConversationScope(pre, namespace));
    var user := pre[LastUser(pre)];
    var sent := LeadingSystem(opening.messages) + [RecoverySystemMessage()];
    var later := LeadingSystem(pre) + [RecoverySystemMessage()];
    assert turn.messages == sent + [user] && AnchorHead(pre) == later + [user];
    SystemHead(opening.messages, sent);
    SystemHead(pre, later);
    WithoutSystemOfSystems(sent, user);
    WithoutSystemOfSystems(later, user);
    if LastNotice(pre) == -1 {
      LeadingOfSameOthers(pre, opening.messages);
    } else {
      LeadingOfSameOthers(FromBoundary(pre, LastNotice(pre)), opening.messages);
      LeadingOfBoundaryForm(pre);
      assert |CanonicalAll(turn.messages)| == |CanonicalAll(AnchorHead(pre))| + 1;
    }
  }

  /** With the recovery message sent twice, recording the reply writes nothing under the scope that later boundary
      forms look it up with: in those forms only a key of its turn finds it. */
  lemma OnlyItsTurnFindsIt(pre: seq<Message>, namespace: Namespace, cache: Cache, seen: set<Scope>, before: Cache,
                           reply: Message)
    requires AllSettled(pre) && LastNotice(pre) != -1
    requires Drain(Opening(pre, namespace, Recover, cache, seen), namespace, ConversationScope(pre, namespace)).notice
    ensures LastUser(pre) != -1
    ensures var turn := Drain(Opening(pre, namespace, Recover, cache, seen), namespace,
                              ConversationScope(pre, namespace));
      var anchor := ConversationScope(AnchorHead(pre), namespace);
      var after := RecordedUnder(before, reply, Contexts(pre, turn.messages, namespace), namespace);
      forall sel :: Scoped(anchor, sel) in after <==> Scoped(anchor, sel) in before
  {
    hide Opening, Drain, TurnContext, AllSettled, LastUser, AnchorHead, RecordedUnder, Contexts, Stored,
      ConversationScope, LastNotice;
    AnchorIsRecorded(pre, namespace, cache, seen);
    AnchorHasOtherScope(pre, namespace);
    var turn := Drain(Opening(pre, namespace, Recover, cache, seen), namespace, ConversationScope(pre, namespace));
    var anchor := ConversationScope(AnchorHead(pre), namespace);
    var own, sent := ConversationScope(pre, namespace), ConversationScope(turn.messages, namespace);
    RecordedOnceOrTwice(before, reply, pre, turn.messages, namespace);
    OtherScopeUntouched(before, reply, own, namespace, pre, anchor);
    OtherScopeUntouched(Stored(before, reply, own, namespace, pre), reply, sent, namespace, turn.messages, anchor);
  }

  /** A transcript with a notice in it has an assistant message, and the anchor has none. */
  lemma AnchorHasOtherScope(pre: seq<Message>, namespace: Namespace)
    requires AllSettled(pre) && LastNotice(pre) != -1 && LastUser(pre) != -1
    ensures ConversationScope(AnchorHead(pre), namespace) != ConversationScope(pre, namespace)
  {
    hide LastNotice, LastUser, Settled, RecoverySystemMessage;
    AnchorIsPlain(pre);
    var i, head := LastNotice(pre), AnchorHead(pre);
    assert pre[i].role == Assistant;
    assert CanonicalAll(pre)[i].role == Assistant;
    assert i < |head| ==> CanonicalAll(head)[i].role == head[i].role;
  }

  /** The memory of shown notices is per transcript: as long as it holds only shorter transcripts, such as the
      earlier turns of a conversation, it keeps no notice back. */
  lemma LaterTurnsAreNotRemembered(pre: seq<Message>, namespace: Namespace, cache: Cache, seen: set<Scope>)
    requires AllSettled(pre) && forall scope <- seen :: |scope.messages| < |pre|
    ensures Drain(Opening(pre, namespace, Recover, cache, seen), namespace, ConversationScope(pre, namespace)).notice
      <==> Violations(Opening(pre, namespace, Recover, cache, seen).messages) != [] && LastUser(pre) != -1
  {
    hide Opening, Drain, AllSettled, LastUser, Violations;
    NoticeExactly(pre, namespace, cache, seen);
    assert |ConversationScope(pre, namespace).messages| == |pre|;
  }

  lemma SystemHead(messages: seq<Message>, head: seq<Message>)
    requires head == LeadingSystem(messages) + [RecoverySystemMessage()]
    ensures forall i :: 0 <= i < |head| ==> head[i].role == System
  {
  }

  lemma LeadingOfBoundaryForm(pre: seq<Message>)
    requires LastNotice(pre) != -1
    ensures LeadingSystem(FromBoundary(pre, LastNotice(pre))) == LeadingSystem(pre) + [RecoverySystemMessage()]
  {
    var b := LastNotice(pre);
    var lead, rest := LeadingSystem(pre) + [RecoverySystemMessage()], ContextUser(pre, b) + pre[b..];
    assert FromBoundary(pre, b) == lead + rest;
    assert rest[0].role != System;
    LeadingOfConcat(lead, rest);
    assert LeadingSystem(rest) == [];
  }

  // ---------------------------------------------------------------- the turns after it

  /** What the conversation has added since its first request. */
  ghost function Tail(c: Conversation, s: Setting): seq<Message> {
    if c.Begin? then [] else Tail(c.before, s) + [Echoed(c, s)] + NormalizedAll(c.additions, true)
  }

  lemma {:induction false} PreIsRootAndTail(c: Conversation, s: Setting)
    ensures Root(c).Begin? && Pre(c, s) == Pre(Root(c), s) + Tail(c, s)
  {
    hide Pre, Turn, AsRecorded;
    if c.Next? {
      PreIsRootAndTail(c.before, s);
      PreGrows(c, s);
      Regrouped(Pre(Root(c), s), Tail(c.before, s), [Echoed(c, s)], NormalizedAll(c.additions, true));
    } else {
      assert Pre(c, s) + [] == Pre(c, s);
    }
  }

  lemma Regrouped(a: seq<Message>, b: seq<Message>, c: seq<Message>, d: seq<Message>)
    ensures (a + b) + c + d == a + (b + c + d)
  {
  }

  /** After the recovering turn the model's own replies do not begin with the notice. */
  ghost predicate LaterRepliesArePlain(c: Conversation) {
    c.Next? ==>
      LaterRepliesArePlain(c.before) && (c.before.Next? ==> !(RecoveryNoticeText() <= TextOr(c.reply.content)))
  }

  /** The first turn of the conversation recovered and its reply carries the notice. */
  ghost predicate StartsRecovered(c: Conversation, s: Setting) {
    Turn(Root(c), s).notice && !s.namespace.Unnamed?
  }

  lemma {:induction false} RootIsValid(c: Conversation, s: Setting)
    requires Valid(c, s)
    ensures Valid(Root(c), s)
  {
    hide Turn, Pre, AsRecorded, CacheAfterTurn;
    if c.Next? { RootIsValid(c.before, s); }
  }

  /** Echoes keep the text of what was recorded. */
  lemma EchoedNotice(c: Conversation, s: Setting)
    requires c.Next? && Valid(c, s)
    ensures HasRecoveryNotice(Echoed(c, s))
      <==> RecoveryNoticeText() <= TextOr(AsRecorded(c.before, c.reply, s).content)
  {
    var recorded := AsRecorded(c.before, c.reply, s);
    EchoRestoresSignature(recorded, s.display);
    hide AsRecorded, Turn, Normalized;
    assert SignedContent(recorded.content) == Text(TextOr(recorded.content));
    assert SignedContent(Echoed(c, s).content) == Text(TextOr(recorded.content));
  }

  lemma NoticeStartsNotice(reply: Message)
    ensures RecoveryNoticeText() <= TextOr(WithPrefix(reply, RecoveryNoticeContent()).content)
  {
    var text := RecoveryNoticeContent() + TextOr(reply.content);
    assert text == RecoveryNoticeText() + ("\n\n" + TextOr(reply.content));
  }

  /** The tail begins with the only notice in it. */
  ghost predicate NoticeOnlyFirst(tail: seq<Message>) {
    tail != [] && HasRecoveryNotice(tail[0]) && forall i :: 0 < i < |tail| ==> !HasRecoveryNotice(tail[i])
  }

  lemma NoticeOnlyFirstGrows(tail: seq<Message>, echoed: Message, additions: seq<Message>)
    requires tail == [] ==> HasRecoveryNotice(echoed)
    requires tail != [] ==> NoticeOnlyFirst(tail) && !HasRecoveryNotice(echoed)
    requires OnlyOthers(additions)
    ensures NoticeOnlyFirst(tail + [echoed] + additions)
  {
  }

  lemma AnchoredAt(pre: seq<Message>, tail: seq<Message>)
    requires LastUser(pre) != -1 && NoticeOnlyFirst(tail)
    ensures LastNotice(pre + tail) == |pre|
    ensures ActiveFromBoundary(pre + tail).Some?
    ensures ActiveFromBoundary(pre + tail).value.messages == AnchorHead(pre) + tail
  {
    var all := pre + tail;
    assert all[|pre|] == tail[0];
    forall i | |pre| < i < |all| ensures !HasRecoveryNotice(all[i]) { assert all[i] == tail[i - |pre|]; }
    LeadingBeforeUser(pre, tail);
    assert all[..|pre|] == pre && all[|pre|..] == tail;
    hide LastUser, HasRecoveryNotice, RecoverySystemMessage, LeadingSystem;
    assert FromBoundary(all, |pre|) == AnchorHead(pre) + tail;
  }

  lemma {:induction false} LeadingBeforeUser(pre: seq<Message>, tail: seq<Message>)
    requires exists i :: 0 <= i < |pre| && pre[i].role == User
    ensures LeadingSystem(pre + tail) == LeadingSystem(pre)
  {
    assert (pre + tail)[0] == pre[0];
    if pre[0].role == System {
      assert (pre + tail)[1..] == pre[1..] + tail;
      var i :| 0 <= i < |pre| && pre[i].role == User;
      assert pre[1..][i - 1].role == User;
      LeadingBeforeUser(pre[1..], tail);
    }
  }

  /** The boundary form of a turn of the conversation. */
  ghost predicate Anchored(c: Conversation, s: Setting) {
    var root := Pre(Root(c), s);
    && LastUser(root) != -1
    && NoticeOnlyFirst(Tail(c, s))
    && ActiveFromBoundary(Pre(c, s)).Some?
    && ActiveFromBoundary(Pre(c, s)).value.messages == AnchorHead(root) + Tail(c, s)
  }

  /** What every later turn keeps: its transcript is complete, or its boundary form is. */
  ghost predicate Continues(c: Conversation, s: Setting)
    requires Anchored(c, s)
  {
    || Complete(c.world.cache, s.namespace, Pre(c, s))
    || Complete(c.world.cache, s.namespace, AnchorHead(Pre(Root(c), s)) + Tail(c, s))
  }

  lemma RootTurnFacts(c: Conversation, s: Setting)
    requires Valid(c, s) && StartsRecovered(c, s)
    ensures var root := Root(c);
      && LastUser(Pre(root, s)) != -1
      && TurnContext(Turn(root, s).messages) == TurnContext(AnchorHead(Pre(root, s)))
      && OnlyOthers(AnchorHead(Pre(root, s))) && AllSettled(AnchorHead(Pre(root, s)))
  {
    hide Drain, Opening, TurnContext, Valid, AllSettled, OnlyOthers, AnchorHead, ConversationScope, LastUser;
    RootIsValid(c, s);
    PreIsSettled(Root(c), s);
    var pre := Pre(Root(c), s);
    var opening := Opening(pre, s.namespace, Recover, Root(c).world.cache, Root(c).world.seen);
    assert Turn(Root(c), s) == Drain(opening, s.namespace, ConversationScope(pre, s.namespace));
    AnchorIsRecorded(pre, s.namespace, Root(c).world.cache, Root(c).world.seen);
    AnchorIsPlain(pre);
  }

  lemma AnchorIsPlain(pre: seq<Message>)
    requires AllSettled(pre) && LastUser(pre) != -1
    ensures OnlyOthers(AnchorHead(pre)) && AllSettled(AnchorHead(pre))
  {
    LatestUserFormIsOthers(pre, LastUser(pre));
    assert AnchorHead(pre) == FromLatestUser(pre, LastUser(pre));
    hide LastUser, LeadingSystem, RecoverySystemMessage, AnchorHead, FromLatestUser, Settled;
  }

  /** The first turn after recovery: the reply with the notice is found under the turn of the anchor. */
  lemma FirstEchoIsFindable(c: Conversation, s: Setting)
    requires Valid(c, s) && StartsRecovered(c, s) && c.Next? && c.before.Begin?
    ensures LastUser(Pre(c.before, s)) != -1
    ensures Settled(Echoed(c, s)) && Bared(Echoed(c, s)) == Echoed(c, s)
    ensures Findable(c.world.cache, Echoed(c, s), s.namespace, AnchorHead(Pre(c.before, s)))
  {
    RootTurnFacts(c, s);
    var turn := Turn(c.before, s);
    RecordingHolds(turn.cache, AsRecorded(c.before, c.reply, s), Pre(c.before, s), turn.messages, s.namespace);
    hide Pre, TurnContext, Contexts, RecordedUnder, AnchorHead, Findable;
    EchoIsFindable(c, s, AnchorHead(Pre(c.before, s)));
  }

  /** Later turns: the reply is found under the boundary form it was recorded in. */
  lemma LaterEchoIsFindable(c: Conversation, s: Setting)
    requires Valid(c, s) && c.Next? && Anchored(c.before, s) && Continues(c.before, s)
    requires !Complete(c.before.world.cache, s.namespace, Pre(c.before, s))
    ensures Settled(Echoed(c, s)) && Bared(Echoed(c, s)) == Echoed(c, s)
    ensures Findable(c.world.cache, Echoed(c, s), s.namespace, AnchorHead(Pre(Root(c), s)) + Tail(c.before, s))
  {
    hide Pre, Turn, Contexts, RecordedUnder, AnchorHead, Findable, Tail, TurnContext, Complete, Echoed;
    CompleteTurnIsUntroubled(c.before, s);
    var turn := Turn(c.before, s);
    var active := AnchorHead(Pre(Root(c), s)) + Tail(c.before, s);
    assert AllOnlyReasoningDiffers(turn.messages, active);
    RecordingHolds(turn.cache, AsRecorded(c.before, c.reply, s), Pre(c.before, s), turn.messages, s.namespace);
    assert ConversationScope(turn.messages, s.namespace) == ConversationScope(active, s.namespace) by {
      assert CanonicalAll(turn.messages) == CanonicalAll(active);
    }
    EchoIsFindable(c, s, active);
  }

  lemma AnchorGrows(c: Conversation, s: Setting)
    requires Valid(c, s) && StartsRecovered(c, s) && LaterRepliesArePlain(c) && c.Next?
    requires c.before.Next? ==> Anchored(c.before, s) && !Turn(c.before, s).notice
    ensures Anchored(c, s)
  {
    RootTurnFacts(c, s);
    PreIsRootAndTail(c, s);
    EchoedNotice(c, s);
    NoticeStartsNotice(c.reply);
    OthersStayOthers(c.additions);
    hide Pre, Turn, AnchorHead, HasRecoveryNotice, NormalizedAll, WithPrefix, RecoveryNoticeText, Valid;
    NoticeOnlyFirstGrows(Tail(c.before, s), Echoed(c, s), NormalizedAll(c.additions, true));
    AnchoredAt(Pre(Root(c), s), Tail(c, s));
  }

  lemma BoundaryFormContinues(c: Conversation, s: Setting)
    requires Valid(c, s) && StartsRecovered(c, s) && c.Next? && Anchored(c, s)
    requires c.before.Next? ==> Anchored(c.before, s) && !Complete(c.before.world.cache, s.namespace, Pre(c.before, s))
    requires c.before.Next? ==>
      Complete(c.before.world.cache, s.namespace, AnchorHead(Pre(Root(c), s)) + Tail(c.before, s))
    ensures Complete(c.world.cache, s.namespace, AnchorHead(Pre(Root(c), s)) + Tail(c, s))
  {
    hide Pre, Turn, AnchorHead, Complete, NormalizedAll, Valid, Findable, AllSettled, LastUser, LastNotice, Echoed;
    RootTurnFacts(c, s);
    var head := AnchorHead(Pre(Root(c), s));
    OnlyOthersAppended(c, s);
    if c.before.Begin? {
      FirstEchoIsFindable(c, s);
      HeadIsComplete(head, s.namespace, c.world.cache);
      assert head + Tail(c.before, s) == head;
      CompleteExtends(c.world.cache, c.world.cache, s.namespace, head, Echoed(c, s), NormalizedAll(c.additions, true));
    } else {
      LaterEchoIsFindable(c, s);
      CacheOfTurnGrows(c, s);
      AnchoredIsSettled(c.before, s);
      CompleteExtends(c.before.world.cache, c.world.cache, s.namespace, head + Tail(c.before, s), Echoed(c, s),
                      NormalizedAll(c.additions, true));
    }
    Regrouped(head, Tail(c.before, s), [Echoed(c, s)], NormalizedAll(c.additions, true));
  }

  lemma OnlyOthersAppended(c: Conversation, s: Setting)
    requires Valid(c, s) && c.Next?
    ensures Valid(c.before, s)
    ensures forall i :: 0 <= i < |NormalizedAll(c.additions, true)| ==>
      NormalizedRole(NormalizedAll(c.additions, true)[i].role) != Assistant
  {
    OthersStayOthers(c.additions);
  }

  lemma HeadIsComplete(head: seq<Message>, namespace: Namespace, cache: Cache)
    requires OnlyOthers(head)
    ensures Complete(cache, namespace, head)
  {
    OthersAreNeverMissing([], head, namespace, cache);
  }

  lemma AnchoredIsSettled(c: Conversation, s: Setting)
    requires Valid(c, s) && Anchored(c, s)
    ensures AllSettled(AnchorHead(Pre(Root(c), s)) + Tail(c, s))
  {
    PreIsSettled(c, s);
    BoundaryFormIsSettled(Pre(c, s), LastNotice(Pre(c, s)));
  }

  lemma CacheOfTurnGrows(c: Conversation, s: Setting)
    requires Valid(c, s) && c.Next? && Anchored(c.before, s) && Continues(c.before, s)
    ensures c.before.world.cache.Keys <= c.world.cache.Keys
  {
    CompleteTurnIsUntroubled(c.before, s);
    var turn := Turn(c.before, s);
    RecordedUnderGrows(turn.cache, AsRecorded(c.before, c.reply, s),
                       Contexts(Pre(c.before, s), turn.messages, s.namespace), s.namespace);
  }

  lemma {:induction false} EveryLaterTurnContinues(c: Conversation, s: Setting)
    requires Valid(c, s) && StartsRecovered(c, s) && LaterRepliesArePlain(c) && c.Next?
    ensures Anchored(c, s) && Continues(c, s)
    decreases c
  {
    if c.before.Next? {
      EveryLaterTurnContinues(c.before, s);
      CompleteTurnIsUntroubled(c.before, s);
      AnchorGrows(c, s);
      if Complete(c.before.world.cache, s.namespace, Pre(c.before, s)) {
        CompleteTurnIsFollowedByOne(c, s);
      } else {
        BoundaryFormContinues(c, s);
      }
    } else {
      AnchorGrows(c, s);
      BoundaryFormContinues(c, s);
    }
  }

  /** Sticky recovery: in every turn after the recovering one nothing is missing, nothing is cut and no notice is
      issued again; the request is the plain transcript, or the anchor followed by everything since. */
  lemma RecoverySticks(c: Conversation, s: Setting)
    requires Valid(c, s) && StartsRecovered(c, s) && LaterRepliesArePlain(c) && c.Next?
    ensures Untroubled(Turn(c, s))
    ensures LastUser(Pre(Root(c), s)) != -1
    ensures || (Turn(c, s).steps == [] && AllOnlyReasoningDiffers(Turn(c, s).messages, Pre(c, s)))
            || (Turn(c, s).steps == [ContinuedBoundary]
                && AllOnlyReasoningDiffers(Turn(c, s).messages, AnchorHead(Pre(Root(c), s)) + Tail(c, s)))
  {
    EveryLaterTurnContinues(c, s);
    CompleteTurnIsUntroubled(c, s);
  }
}
