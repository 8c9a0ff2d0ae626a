/** Preparing an upstream request: normalise, repair, and cut the history back until the contract holds. */
module Prepare {
  import opened Collections
  import opened Options
  import opened Transcript
  import opened Keys
  import opened ReasoningCache
  import opened Normalize
  import opened Recovery
  import opened Rounds
  import opened Selection
  import opened Wording
  import opened Sending

  /** A scope under which the coming response is recorded, and the messages before it. */
  datatype Context = Context(scope: Scope, messages: seq<Message>)

  datatype PreparedRequest = PreparedRequest(
    messages: seq<Message>,
    patched: nat,
    missing: nat,
    recovered: nat,
    dropped: int,
    notice: bool,
    contexts: seq<Context>,
    steps: seq<Strategy>,
    retired: int)

  // ---------------------------------------------------------------- which notices were shown

  const MAX_SEEN_SCOPES := 10_000

  function SeenAfter(seen: set<Scope>, scope: Scope): set<Scope> {
    if scope in seen then seen else (if |seen| > MAX_SEEN_SCOPES then {} else seen) + {scope}
  }

  /** The scope is remembered, and so are the others, up to ten thousand of them. */
  lemma SeenAfterRemembers(seen: set<Scope>, scope: Scope)
    ensures var after := SeenAfter(seen, scope);
      scope in after && after <= seen + {scope} && (|seen| <= 10_000 ==> seen <= after)
  {
  }

  class NoticeTracker {
    var seen: set<Scope>

    constructor ()
      ensures seen == {}
    {
      seen := {};
    }

    method ShouldShow(scope: Scope) returns (show: bool)
      modifies this
      ensures show == (scope !in old(seen)) && seen == SeenAfter(old(seen), scope)
    {
      if scope in seen { return false; }
      if |seen| > MAX_SEEN_SCOPES { seen := {}; }
      seen := seen + {scope};
      show := true;
    }
  }

  // ---------------------------------------------------------------- recording contexts

  ghost function FirstPerScope(items: seq<Option<Context>>): seq<Context> {
    if items == [] then []
    else
      var rest := FirstPerScope(items[..|items| - 1]);
      match items[|items| - 1]
      case None => rest
      case Some(item) => if exists c <- rest :: c.scope == item.scope then rest else rest + [item]
  }

  method ResponseRecordingContexts(items: seq<Option<Context>>) returns (contexts: seq<Context>)
    ensures contexts == FirstPerScope(items)
  {
    contexts := [];
    var seen: set<Scope> := {};
    for i := 0 to |items|
      invariant contexts == FirstPerScope(items[..i])
      invariant seen == set c | c in contexts :: c.scope
    {
      assert items[..i + 1][..i] == items[..i];
      if items[i].Some? && items[i].value.scope !in seen {
        contexts := contexts + [items[i].value];
        seen := seen + {items[i].value.scope};
      }
    }
    assert items[..|items|] == items;
  }

  // ---------------------------------------------------------------- specification of the recovery loop

  datatype Progress = Progress(
    messages: seq<Message>,
    cache: Cache,
    seen: set<Scope>,
    notice: bool,
    recovered: nat,
    dropped: int,
    steps: seq<Strategy>)

  ghost function AfterCut(p: Progress, cut: Cut, namespace: Namespace, recordScope: Scope): Progress {
    var repaired := Repair(cut.messages, namespace, p.cache);
    Progress(
      repaired.messages,
      repaired.cache,
      if cut.notice then SeenAfter(p.seen, recordScope) else p.seen,
      p.notice || (cut.notice && recordScope !in p.seen),
      p.recovered + |Violations(p.messages)|,
      p.dropped + cut.dropped,
      p.steps + [cut.strategy])
  }

  /** Cut back and repair until nothing is missing, or until there is nothing to fall back to. */
  ghost function Drain(p: Progress, namespace: Namespace, recordScope: Scope): Progress
    decreases Assistants(p.messages)
  {
    var cut := CutBack(p.messages, Violations(p.messages));
    if Violations(p.messages) == [] then p
    else if cut.dropped == 0 then p.(steps := p.steps + [cut.strategy])
    else
      CutDecreasesAssistants(p, namespace, recordScope);
      Drain(AfterCut(p, cut, namespace, recordScope), namespace, recordScope)
  }

  lemma CutDecreasesAssistants(p: Progress, namespace: Namespace, recordScope: Scope)
    requires Violations(p.messages) != [] && CutBack(p.messages, Violations(p.messages)).dropped != 0
    ensures var after := AfterCut(p, CutBack(p.messages, Violations(p.messages)), namespace, recordScope);
      Assistants(after.messages) < Assistants(p.messages)
  {
    ViolationsAreExact(p.messages);
    var missing := Violations(p.messages);
    var cut := CutBack(p.messages, missing);
    assert missing[0] in missing;
    CutMakesProgress(p.messages, missing);
    RepairShape([], cut.messages, namespace, p.cache);
    var repaired := Repair(cut.messages, namespace, p.cache).messages;
    assert repaired[0..] == repaired;
    AssistantsNormalized(cut.messages, repaired);
  }

  lemma AssistantsNormalized(messages: seq<Message>, normalized: seq<Message>)
    requires AllOnlyReasoningDiffers(normalized, NormalizedAll(messages, true))
    ensures Assistants(normalized) == Assistants(messages)
  {
    AssistantsOfSameKind(messages, normalized);
  }

  lemma AssistantsOfOutcome(messages: seq<Message>, normalized: seq<Message>, patched: nat, missing: seq<int>)
    requires Outcome(messages, normalized, patched, missing, true, true)
    ensures Assistants(normalized) == Assistants(messages)
  {
    AssistantsNormalized(messages, normalized);
  }

  lemma {:induction false} AssistantsOfSameKind(a: seq<Message>, b: seq<Message>)
    requires |a| == |b| && forall i :: 0 <= i < |a| ==> (a[i].role == Assistant <==> b[i].role == Assistant)
    ensures Assistants(a) == Assistants(b)
  {
    if a != [] { AssistantsOfSameKind(a[..|a| - 1], b[..|b| - 1]); }
  }

  // ---------------------------------------------------------------- specification of the whole preparation

  datatype Prepared = Prepared(request: PreparedRequest, active: seq<Message>, cache: Cache, seen: set<Scope>)

  /** The state before the recovery loop: the repaired transcript, or its form from the last notice on. */
  ghost function Opening(pre: seq<Message>, namespace: Namespace, strategy: MissingStrategy, cache: Cache,
                         seen: set<Scope>): Progress {
    var first := Repair(pre, namespace, cache);
    if Violations(first.messages) != [] && strategy == Recover && ActiveFromBoundary(pre).Some? then
      var second := Repair(ActiveFromBoundary(pre).value.messages, namespace, first.cache);
      Progress(second.messages, second.cache, seen, false, 0, 0, [ContinuedBoundary])
    else
      Progress(first.messages, first.cache, seen, false, 0, 0, [])
  }

  /** Preparation with thinking enabled and a store that forgets nothing. */
  ghost function PreparedWithThinking(raw: seq<Message>, namespace: Namespace, strategy: MissingStrategy, cache: Cache,
                                      seen: set<Scope>): Progress {
    var pre := NormalizedAll(raw, true);
    var opening := Opening(pre, namespace, strategy, cache, seen);
    if strategy == Recover then Drain(opening, namespace, ConversationScope(pre, namespace)) else opening
  }

  ghost function Contexts(pre: seq<Message>, active: seq<Message>, namespace: Namespace): seq<Context> {
    FirstPerScope([Some(Context(ConversationScope(pre, namespace), pre)),
                   Some(Context(ConversationScope(active, namespace), active))])
  }

  // ---------------------------------------------------------------- what every step keeps

  /** Non-assistant messages are in normal form. */
  ghost predicate OthersSettled(messages: seq<Message>) {
    forall i :: 0 <= i < |messages| && messages[i].role != Assistant ==> Settled(messages[i])
  }

  /** The leading system messages and the latest user message of `before` are still there. */
  ghost predicate KeepsEnds(before: seq<Message>, after: seq<Message>) {
    && LeadingSystem(before) <= LeadingSystem(after)
    && (LastUser(before) != -1 ==> LastUser(after) != -1 && after[LastUser(after)] == before[LastUser(before)])
    && (LastUser(before) == -1 ==> LastUser(after) == -1)
  }

  ghost predicate SameOthers(a: seq<Message>, b: seq<Message>) {
    |a| == |b| && forall i :: 0 <= i < |a| ==>
      (a[i].role == Assistant <==> b[i].role == Assistant) && (a[i].role != Assistant ==> a[i] == b[i])
  }

  lemma NormalizingKeepsOthers(messages: seq<Message>, normalized: seq<Message>)
    requires OthersSettled(messages) && AllOnlyReasoningDiffers(normalized, NormalizedAll(messages, true))
    ensures SameOthers(messages, normalized) && OthersSettled(normalized)
  {
    forall i | 0 <= i < |messages|
      ensures (messages[i].role == Assistant <==> normalized[i].role == Assistant)
        && (messages[i].role != Assistant ==> messages[i] == normalized[i])
    {
      assert OnlyReasoningDiffers(normalized[i], NormalizedAll(messages, true)[i]);
      if messages[i].role != Assistant { assert Settled(messages[i]); }
    }
  }

  lemma SameOthersKeepEnds(a: seq<Message>, b: seq<Message>)
    requires SameOthers(a, b)
    ensures KeepsEnds(a, b)
  {
    assert forall i :: 0 <= i < |a| ==> (a[i].role == User <==> b[i].role == User);
    LeadingOfSameOthers(a, b);
    assert LastUser(a) == LastUser(b);
  }

  lemma {:induction false} LeadingOfSameOthers(a: seq<Message>, b: seq<Message>)
    requires SameOthers(a, b)
    ensures LeadingSystem(a) == LeadingSystem(b)
  {
    if a != [] { LeadingOfSameOthers(a[1..], b[1..]); }
  }

  lemma {:induction false} LeadingOfConcat(a: seq<Message>, b: seq<Message>)
    requires forall i :: 0 <= i < |a| ==> a[i].role == System
    ensures LeadingSystem(a + b) == a + LeadingSystem(b)
  {
    if a == [] {
      assert a + b == b;
    } else {
      assert (a + b)[1..] == a[1..] + b;
      LeadingOfConcat(a[1..], b);
    }
  }

  lemma LastUserIs(messages: seq<Message>, index: int)
    requires -1 <= index < |messages| && (index >= 0 ==> messages[index].role == User)
    requires forall i :: index < i < |messages| ==> messages[i].role != User
    ensures LastUser(messages) == index
  {
  }

  lemma PickedLatestUser(before: seq<Message>, kept: seq<int>, h: nat, after: seq<Message>)
    requires Increasing(kept) && forall k :: 0 <= k < |kept| ==> 0 <= kept[k] < |before|
    requires |after| == h + |kept|
    requires forall i :: 0 <= i < h ==> after[i].role != User
    requires forall i :: h <= i < |after| ==> after[i] == before[kept[i - h]]
    requires LastUser(before) != -1 && LastUser(before) in kept
    ensures LastUser(after) != -1 && after[LastUser(after)] == before[LastUser(before)]
  {
    var latest := LastUser(before);
    var k :| 0 <= k < |kept| && kept[k] == latest;
    forall i | h + k < i < |after| ensures after[i].role != User { assert kept[i - h] > kept[k]; }
    assert after[h + k] == before[latest];
    LastUserIs(after, h + k);
  }

  lemma ConservingKeepsLeading(before: seq<Message>, after: seq<Message>, dropped: int, kept: seq<int>)
    requires Conserves(before, after, dropped, kept)
    ensures LeadingSystem(before) <= LeadingSystem(after)
  {
    var head := LeadingSystem(before) + [RecoverySystemMessage()];
    var picked := Pick(before, kept);
    assert head[|LeadingSystem(before)|].role == System;
    hide LeadingSystem, LastUser, Pick, RecoverySystemMessage;
    LeadingOfConcat(head, picked);
  }

  lemma ConservingKeepsUser(before: seq<Message>, after: seq<Message>, dropped: int, kept: seq<int>)
    requires Conserves(before, after, dropped, kept)
    ensures if LastUser(before) == -1 then LastUser(after) == -1
      else LastUser(after) != -1 && after[LastUser(after)] == before[LastUser(before)]
  {
    var lead := LeadingSystem(before);
    var h := |lead| + 1;
    assert forall i :: 0 <= i < h ==> after[i].role != User by {
      assert forall i :: 0 <= i < |lead| ==> after[i] == before[i];
      assert after[|lead|] == RecoverySystemMessage();
    }
    assert forall i :: h <= i < |after| ==> after[i] == before[kept[i - h]];
    hide LeadingSystem, LastUser, Pick, RecoverySystemMessage;
    if LastUser(before) == -1 { LastUserIs(after, -1); } else { PickedLatestUser(before, kept, h, after); }
  }

  /** A conserving cut keeps both ends. */
  lemma ConservingKeepsEnds(before: seq<Message>, after: seq<Message>, dropped: int, kept: seq<int>)
    requires Conserves(before, after, dropped, kept)
    ensures KeepsEnds(before, after)
  {
    hide Conserves, LeadingSystem, LastUser;
    ConservingKeepsLeading(before, after, dropped, kept);
    ConservingKeepsUser(before, after, dropped, kept);
  }

  lemma ConservingKeepsSettled(before: seq<Message>, after: seq<Message>, dropped: int, kept: seq<int>)
    requires Conserves(before, after, dropped, kept) && OthersSettled(before)
    ensures OthersSettled(after)
  {
    var lead := |LeadingSystem(before)|;
    forall i | 0 <= i < |after| && after[i].role != Assistant ensures Settled(after[i]) {
      if i < lead {
        assert after[i] == before[i];
      } else if i == lead {
        assert after[i] == RecoverySystemMessage();
      } else {
        var k := i - lead - 1;
        assert after[i] == Pick(before, kept)[k] == before[kept[k]];
      }
    }
  }

  // ---------------------------------------------------------------- at most one pass

  /** No notice has anything missing before it: a cut will not find a boundary. */
  ghost predicate NoBoundaryToCutAt(messages: seq<Message>, missing: seq<int>) {
    LastNoticeAfterMissing(messages, missing) == -1
  }

  lemma NoNoticeNoBoundary(pre: seq<Message>, messages: seq<Message>, missing: seq<int>)
    requires AllSettled(pre) && AllOnlyReasoningDiffers(messages, NormalizedAll(pre, true))
    requires LastNotice(pre) == -1
    ensures NoBoundaryToCutAt(messages, missing)
  {
    NormalizingKeepsNotices(pre, messages);
  }

  /** In the boundary form the only notice comes right after the retained system and user messages. */
  lemma OneNoticeInBoundaryForm(pre: seq<Message>, i: nat)
    requires LastNotice(pre) != -1 && i < |FromBoundary(pre, LastNotice(pre))|
    ensures var head := BoundaryHead(pre, LastNotice(pre));
      var message := FromBoundary(pre, LastNotice(pre))[i];
      (i < |head| ==> message.role != Assistant) && (i != |head| ==> !HasRecoveryNotice(message))
  {
    var b := LastNotice(pre);
    var head := BoundaryHead(pre, b);
    if i > |head| { assert !HasRecoveryNotice(pre[b + (i - |head|)]); }
  }

  lemma BoundaryFormHasNoBoundary(pre: seq<Message>, messages: seq<Message>, missing: seq<int>)
    requires AllSettled(pre) && LastNotice(pre) != -1
    requires SameNotices(FromBoundary(pre, LastNotice(pre)), messages)
    requires forall m <- missing :: 0 <= m < |messages| && messages[m].role == Assistant
    ensures NoBoundaryToCutAt(messages, missing)
  {
    forall i, m | 0 <= m < i < |messages| && HasRecoveryNotice(messages[i]) ensures messages[m].role != Assistant {
      OneNoticeInBoundaryForm(pre, i);
      OneNoticeInBoundaryForm(pre, m);
    }
  }

  ghost predicate SameNotices(a: seq<Message>, b: seq<Message>) {
    |a| == |b| && forall i :: 0 <= i < |a| ==>
      (a[i].role == Assistant <==> b[i].role == Assistant) && (HasRecoveryNotice(a[i]) <==> HasRecoveryNotice(b[i]))
  }

  lemma NormalizingKeepsNotices(messages: seq<Message>, normalized: seq<Message>)
    requires AllSettled(messages) && AllOnlyReasoningDiffers(normalized, NormalizedAll(messages, true))
    ensures SameNotices(messages, normalized)
  {
    forall i | 0 <= i < |messages|
      ensures (messages[i].role == Assistant <==> normalized[i].role == Assistant)
        && (HasRecoveryNotice(messages[i]) <==> HasRecoveryNotice(normalized[i]))
    {
      assert Settled(messages[i]) && OnlyReasoningDiffers(normalized[i], NormalizedAll(messages, true)[i]);
    }
  }

  lemma BoundaryFormIsSettled(pre: seq<Message>, boundary: nat)
    requires AllSettled(pre) && boundary <= |pre|
    ensures AllSettled(FromBoundary(pre, boundary))
  {
    var active := FromBoundary(pre, boundary);
    var head := BoundaryHead(pre, boundary);
    assert active == head + pre[boundary..];
    forall i | 0 <= i < |active| ensures Settled(active[i]) {
      if i < |LeadingSystem(pre)| { assert active[i] == pre[i]; }
      else if i == |LeadingSystem(pre)| { assert active[i] == RecoverySystemMessage(); }
      else if i < |head| { assert active[i] == pre[LastUser(pre[..boundary])]; }
      else { assert active[i] == pre[boundary + (i - |head|)]; }
    }
  }

  /** The opening state of the loop offers no boundary to cut at. */
  lemma OpeningOffersNoBoundary(pre: seq<Message>, start: seq<Message>, continued: bool, missing: seq<int>)
    requires AllSettled(pre) && (continued <==> ActiveFromBoundary(pre).Some?)
    requires var form := if continued then ActiveFromBoundary(pre).value.messages else pre;
      AllOnlyReasoningDiffers(start, NormalizedAll(form, true))
    requires forall m <- missing :: 0 <= m < |start| && start[m].role == Assistant
    ensures NoBoundaryToCutAt(start, missing)
  {
    if continued {
      BoundaryFormIsSettled(pre, LastNotice(pre));
      NormalizingKeepsNotices(FromBoundary(pre, LastNotice(pre)), start);
      BoundaryFormHasNoBoundary(pre, start, missing);
    } else { NoNoticeNoBoundary(pre, start, missing); }
  }

  // ---------------------------------------------------------------- the method

  ghost predicate StepsAreOneCut(steps: seq<Strategy>) {
    || steps == [] || steps == [ContinuedBoundary]
    || steps == [LatestUser] || steps == [ContinuedBoundary, LatestUser]
    || steps == [NoUser] || steps == [ContinuedBoundary, NoUser]
  }

  /** The loop invariant that does not depend on how the store behaves. */
  ghost predicate Sound(pre: seq<Message>, messages: seq<Message>, missing: seq<int>) {
    && missing == Violations(messages)
    && OthersSettled(messages)
    && KeepsEnds(pre, messages)
    && AllInForm(pre) && ComesFrom(pre, messages)
  }

  lemma FirstPassIsSound(pre: seq<Message>, messages: seq<Message>, patched: nat, missing: seq<int>)
    requires AllInForm(pre) && Outcome(pre, messages, patched, missing, true, true)
    ensures Sound(pre, messages, missing)
  {
    InFormIsOthersSettled(pre);
    hide AllInForm, ComesFrom, OthersSettled, KeepsEnds, SameOthers;
    NormalizingKeepsOthers(pre, messages);
    SameOthersKeepEnds(pre, messages);
    ComesFromItself(pre);
    ComesFromRepaired(pre, pre, messages);
  }

  lemma InFormIsOthersSettled(messages: seq<Message>)
    requires AllInForm(messages)
    ensures OthersSettled(messages)
  {
    hide NormalizedContent, NormalizedCalls;
  }

  /** Cutting and normalising again keeps the invariant. */
  lemma NextPassIsSound(pre: seq<Message>, before: seq<Message>, cut: seq<Message>, dropped: int, kept: seq<int>,
                        messages: seq<Message>, patched: nat, missing: seq<int>)
    requires OthersSettled(before) && KeepsEnds(pre, before) && AllInForm(pre) && ComesFrom(pre, before)
    requires Conserves(before, cut, dropped, kept) && Outcome(cut, messages, patched, missing, true, true)
    ensures Sound(pre, messages, missing)
  {
    hide AllInForm, ComesFrom, OthersSettled, SameOthers, Conserves, LeadingSystem;
    ConservingKeepsEnds(before, cut, dropped, kept);
    ConservingKeepsSettled(before, cut, dropped, kept);
    NormalizingKeepsOthers(cut, messages);
    SameOthersKeepEnds(cut, messages);
    ComesFromCut(pre, before, cut, dropped, kept);
    ComesFromRepaired(pre, cut, messages);
  }

  lemma MissingAreAssistants(messages: seq<Message>)
    ensures forall m <- Violations(messages) :: 0 <= m < |messages| && messages[m].role == Assistant
  {
    ViolationsAreExact(messages);
  }

  lemma NoAssistantsNoViolations(messages: seq<Message>)
    requires Assistants(messages) == 0
    ensures Violations(messages) == []
  {
    ViolationsAreExact(messages);
    if Violations(messages) != [] {
      assert Violations(messages)[0] in Violations(messages);
      SomeAssistant(messages, Violations(messages)[0]);
      assert false;
    }
  }

  lemma WithoutBoundaryCut(messages: seq<Message>, missing: seq<int>)
    requires NoBoundaryToCutAt(messages, missing)
    ensures CutBack(messages, missing).strategy == LatestUser || CutBack(messages, missing).strategy == NoUser
  {
  }

  /** How many messages the continued boundary leaves out. */
  ghost function RetiredBy(pre: seq<Message>, continued: bool): int {
    if continued && LastNotice(pre) != -1 then Retired(pre, LastNotice(pre)) else 0
  }

  lemma NoUserLeft(pre: seq<Message>, messages: seq<Message>)
    requires KeepsEnds(pre, messages)
    ensures LastUser(messages) == -1 ==> LastUser(pre) == -1
  {
  }

  /** One pass of the recovery loop. */
  method CutAndRepair(ghost pre: seq<Message>, messages: seq<Message>, missing: seq<int>, namespace: Namespace,
                      recordScope: Scope, store: ReasoningStore?, tracker: NoticeTracker, ghost p: Progress)
    returns (next: seq<Message>, patched: nat, stillMissing: seq<int>, cut: Cut, shown: bool)
    requires Sound(pre, messages, missing) && missing != []
    requires Steady(store) ==> p.messages == messages && p.cache == ContentsOf(store) && p.seen == tracker.seen
    modifies store, tracker
    ensures store != null ==> store.closed == old(store.closed)
    ensures cut == CutBack(messages, missing) && cut.strategy != ContinuedBoundary
    ensures cut.dropped == 0 <==> cut.strategy == NoUser
    ensures cut.dropped == 0 ==>
      LastUser(pre) == -1 && ContentsOf(store) == old(ContentsOf(store)) && tracker.seen == old(tracker.seen)
    ensures cut.dropped != 0 ==> Sound(pre, next, stillMissing) && Assistants(next) < Assistants(messages)
    ensures cut.dropped != 0 ==> Outcome(cut.messages, next, patched, stillMissing, true, true)
    ensures ClosedOf(store) == old(ClosedOf(store))
    ensures if cut.dropped == 0 then TableOf(store) == old(TableOf(store)) && !shown
      else Repairs(old(TableOf(store)), TableOf(store), cut.messages, next, namespace, ClosedOf(store), LimitsOf(store))
           && shown == (cut.notice && recordScope !in old(tracker.seen))
           && tracker.seen == if cut.notice then SeenAfter(old(tracker.seen), recordScope) else old(tracker.seen)
    ensures cut.strategy == LatestUser ==> Assistants(next) == 0 && stillMissing == []
    ensures NoBoundaryToCutAt(messages, missing) ==> cut.strategy == LatestUser || cut.strategy == NoUser
    ensures cut.dropped != 0 && old(Steady(store)) ==>
        AfterCut(p, cut, namespace, recordScope)
        == Progress(next, ContentsOf(store), tracker.seen, p.notice || shown, p.recovered + |missing|,
                    p.dropped + cut.dropped, p.steps + [cut.strategy])
  {
    hide Violations, Repair, Assistants, CutBack, Conserves, KeepsEnds, OthersSettled, Outcome, LastUser, LeadingSystem,
      AllInForm, ComesFrom, Repairs, AllCarry, AfterCut, SeenAfter, NoBoundaryToCutAt, CutAsItShould;
    next, patched, stillMissing, shown := messages, 0, missing, false;
    cut := RecoverMessagesFromMissingReasoning(messages, missing);
    MissingAreAssistants(messages);
    assert missing[0] in missing;
    CutMakesProgress(messages, missing);
    if NoBoundaryToCutAt(messages, missing) { WithoutBoundaryCut(messages, missing); }
    NoUserLeft(pre, messages);
    if cut.dropped != 0 {
      if cut.notice {
        shown := tracker.ShouldShow(recordScope);
      }
      ghost var kept := CutConserves(messages, missing);
      next, patched, stillMissing := NormalizeMessages(cut.messages, store, namespace, true, true);
      if old(Steady(store)) {
        AfterCutIs(p, cut, namespace, recordScope, next, ContentsOf(store), tracker.seen, shown);
      }
      NextPassIsSound(pre, messages, cut.messages, cut.dropped, kept, next, patched, stillMissing);
      AssistantsOfOutcome(cut.messages, next, patched, stillMissing);
      if Assistants(next) == 0 { NoAssistantsNoViolations(next); }
    }
  }

  lemma AfterCutIs(p: Progress, cut: Cut, namespace: Namespace, scope: Scope, next: seq<Message>, cache: Cache,
                   seen: set<Scope>, shown: bool)
    requires Repaired(next, cache) == Repair(cut.messages, namespace, p.cache)
    requires seen == if cut.notice then SeenAfter(p.seen, scope) else p.seen
    requires shown == (cut.notice && scope !in p.seen)
    ensures AfterCut(p, cut, namespace, scope)
         == Progress(next, cache, seen, p.notice || shown, p.recovered + |Violations(p.messages)|,
                     p.dropped + cut.dropped, p.steps + [cut.strategy])
  {
  }

  lemma NothingCutYet(pre: seq<Message>)
    requires AllInForm(pre)
    ensures OthersSettled(pre) && KeepsEnds(pre, pre) && ComesFrom(pre, pre)
  {
    hide AllInForm, ComesFrom, OthersSettled;
    InFormIsOthersSettled(pre);
    ComesFromItself(pre);
  }

  lemma OutcomeShape(messages: seq<Message>, normalized: seq<Message>, patched: nat, missing: seq<int>)
    requires Outcome(messages, normalized, patched, missing, true, true)
    ensures AllOnlyReasoningDiffers(normalized, NormalizedAll(messages, true)) && missing == Violations(normalized)
  {
  }

  lemma ContinuingGoesOn(pre: seq<Message>, strategy: MissingStrategy, output: seq<Message>)
    requires strategy == Recover && Violations(output) != [] && LastNotice(pre) != -1
    ensures GoesOn(pre, strategy, Round(pre, output), true)
    ensures NextInput(pre, Round(pre, output), true) == FromBoundary(pre, LastNotice(pre))
  {
  }

  lemma FormAfterPasses(pre: seq<Message>, steps: seq<Strategy>, passes: seq<Strategy>)
    requires ContinuedBoundary !in passes
    ensures FormAfter(pre, steps + passes) == FormAfter(pre, steps)
  {
  }

  /** The transcript that the opening repairs: as it came, or from its last notice on. */
  ghost function FormAfter(pre: seq<Message>, steps: seq<Strategy>): seq<Message> {
    if ContinuedBoundary in steps && LastNotice(pre) != -1 then FromBoundary(pre, LastNotice(pre)) else pre
  }

  /** The transcript the loop starts from: repaired, and continued from the last notice if that left gaps. */
  method RepairOrContinue(pre: seq<Message>, namespace: Namespace, strategy: MissingStrategy, store: ReasoningStore?,
                          ghost seen: set<Scope>)
    returns (messages: seq<Message>, patched: nat, missing: seq<int>, steps: seq<Strategy>, retired: int,
             ghost rounds: seq<Round>)
    requires AllInForm(pre)
    modifies store
    ensures store != null ==> store.closed == old(store.closed)
    ensures ClosedOf(store) == old(ClosedOf(store))
    ensures InRounds(pre, strategy, rounds, old(TableOf(store)), TableOf(store), namespace, ClosedOf(store),
                     LimitsOf(store), messages, Counts(0, 0, steps, false))
    ensures Sound(pre, messages, missing)
    ensures steps == [] || steps == [ContinuedBoundary]
    ensures Outcome(FormAfter(pre, steps), messages, patched, missing, true, true)
    ensures retired == RetiredBy(pre, ContinuedBoundary in steps)
    ensures AllSettled(pre) && missing != [] && strategy == Recover ==> NoBoundaryToCutAt(messages, missing)
    ensures old(Steady(store)) ==>
      Progress(messages, ContentsOf(store), seen, false, 0, 0, steps)
        == Opening(pre, namespace, strategy, old(ContentsOf(store)), seen)
  {
    hide Repair, Violations, OthersSettled, KeepsEnds, LastUser, LastNotice, FromBoundary, KeptAtBoundary, Conserves,
      NoBoundaryToCutAt, AllInForm, ComesFrom, Outcome, Repairs, AllCarry, RoundsLead, GoesOn, NextInput, CountsOf;
    steps, retired := [], 0;
    NothingCutYet(pre);
    ghost var base := TableOf(store);
    messages, patched, missing := NormalizeMessages(pre, store, namespace, true, true);
    FirstPassIsSound(pre, messages, patched, missing);
    FirstRound(pre, strategy, messages, base, TableOf(store), namespace, ClosedOf(store), LimitsOf(store));
    rounds := [Round(pre, messages)];
    OutcomeShape(pre, messages, patched, missing);
    if missing != [] && strategy == Recover {
      var boundary := ActiveMessagesFromRecoveryBoundary(pre);
      if boundary.Some? {
        steps, retired := [ContinuedBoundary], boundary.value.retired;
        ghost var middle := TableOf(store);
        ContinuingGoesOn(pre, strategy, messages);
        messages, patched, missing := NormalizeMessages(boundary.value.messages, store, namespace, true, true);
        OneMoreRound(pre, strategy, rounds, Round(boundary.value.messages, messages), base, middle, TableOf(store),
                     namespace, ClosedOf(store), LimitsOf(store));
        rounds := rounds + [Round(boundary.value.messages, messages)];
        BoundaryConserves(pre, LastNotice(pre));
        NextPassIsSound(pre, pre, boundary.value.messages, Retired(pre, LastNotice(pre)),
                        KeptAtBoundary(pre, LastNotice(pre)), messages, patched, missing);
      }
      MissingAreAssistants(messages);
      OutcomeShape(FormAfter(pre, steps), messages, patched, missing);
      if AllSettled(pre) { OpeningOffersNoBoundary(pre, messages, boundary.Some?, missing); }
    }
  }

  /** The recovery loop. */
  method RecoverUntilComplete(ghost pre: seq<Message>, start: seq<Message>, startPatched: nat, startMissing: seq<int>,
                              namespace: Namespace, recordScope: Scope, strategy: MissingStrategy,
                              store: ReasoningStore?, tracker: NoticeTracker, ghost opening: Progress,
                              ghost form: seq<Message>, ghost first: seq<Round>, ghost base: Table)
    returns (messages: seq<Message>, patched: nat, missing: seq<int>, notice: bool, recovered: nat, dropped: int,
             passes: seq<Strategy>, ghost repaired: seq<Message>, ghost rounds: seq<Round>, ghost counts: Counts)
    requires InRounds(pre, strategy, first, base, TableOf(store), namespace, ClosedOf(store), LimitsOf(store), start,
                      Counts(0, 0, opening.steps, false))
    requires Sound(pre, start, startMissing) && Outcome(form, start, startPatched, startMissing, true, true)
    requires Steady(store) ==> opening == Progress(start, ContentsOf(store), tracker.seen, false, 0, 0, opening.steps)
    modifies store, tracker
    ensures ClosedOf(store) == old(ClosedOf(store))
    ensures InRounds(pre, strategy, rounds, base, TableOf(store), namespace, ClosedOf(store), LimitsOf(store), messages,
                     counts)
    ensures Ended(pre, strategy, rounds) && counts.recovered == recovered && counts.dropped == dropped
    ensures opening.steps + passes == counts.steps + if strategy == Recover && missing != [] then [NoUser] else []
    ensures NoticeFollows(counts.fellBack, recordScope, old(tracker.seen), notice, tracker.seen)
    ensures Sound(pre, messages, missing)
    ensures strategy == Recover && missing != [] ==> LastUser(pre) == -1
    ensures startMissing != [] && strategy == Recover ==>
      NoBoundaryToCutAt(start, startMissing) ==> passes == [LatestUser] || passes == [NoUser]
    ensures startMissing == [] || strategy != Recover ==> passes == []
    ensures ContinuedBoundary !in passes
    ensures Outcome(repaired, messages, patched, missing, true, true)
    ensures LatestUser !in passes && RecoveryBoundary !in passes ==> repaired == form
    ensures old(Steady(store)) ==>
      Progress(messages, ContentsOf(store), tracker.seen, notice, recovered, dropped, opening.steps + passes)
      == if strategy == Recover then Drain(opening, namespace, recordScope) else opening
  {
    hide Repair, CutBack, Violations, AfterCut, OthersSettled, KeepsEnds, Assistants, LastUser, LastNoticeAfterMissing,
      AllInForm, ComesFrom, Outcome, InRounds, Repairs, NoticeFollows, SeenAfter, Ended, Drain, NoBoundaryToCutAt,
      DrainsTo, PassesFit, Sound;
    ghost var closed, limits, seenFirst := ClosedOf(store), LimitsOf(store), tracker.seen;
    ghost var none, started := NoBoundaryToCutAt(start, startMissing), startMissing != [] && strategy == Recover;
    SoundMissing(pre, start, startMissing);
    messages, patched, missing := start, startPatched, startMissing;
    notice, recovered, dropped, passes := false, 0, 0, [];
    repaired, rounds, counts := form, first, Counts(0, 0, opening.steps, false);
    NoNoticeYet(recordScope, tracker.seen);
    NoPassesYet(none, started, startMissing);
    NothingDrained(opening, strategy, namespace, recordScope);
    var stuck := false;
    ghost var p := opening;
    assert opening.steps + [] == opening.steps;
    while missing != [] && strategy == Recover && !stuck
      invariant Sound(pre, messages, missing)
      invariant stuck ==>
        strategy == Recover && missing != [] && LastUser(pre) == -1 && CutBack(messages, missing).dropped == 0
      invariant startMissing == [] ==> passes == []
      invariant store != null ==> store.closed == old(store.closed)
      invariant ClosedOf(store) == closed
      invariant InRounds(pre, strategy, rounds, base, TableOf(store), namespace, closed, limits,
                         messages, counts)
      invariant counts.recovered == recovered && counts.dropped == dropped
      invariant opening.steps + passes == counts.steps + if stuck then [NoUser] else []
      invariant NoticeFollows(counts.fellBack, recordScope, seenFirst, notice, tracker.seen)
      invariant Steady(store) ==>
        && p == Progress(messages, ContentsOf(store), tracker.seen, notice, recovered, dropped, opening.steps + passes)
        && DrainsTo(opening, p, strategy, namespace, recordScope, stuck)
      invariant PassesFit(none, started, passes,
                          missing, stuck)
      invariant passes == [] ==> messages == start && missing == startMissing
      invariant Outcome(repaired, messages, patched, missing, true, true)
      invariant LatestUser !in passes && RecoveryBoundary !in passes ==> repaired == form
      decreases !stuck, Assistants(messages)
    {
      ghost var middle, seen := TableOf(store), tracker.seen;
      var next, nextPatched, stillMissing, cut, shown :=
        CutAndRepair(pre, messages, missing, namespace, recordScope, store, tracker, p);
      SoundMissing(pre, messages, missing);
      Associates(opening.steps, passes, [cut.strategy]);
      PassesGrow(none, started, passes, missing,
                 cut.strategy, if cut.dropped == 0 then missing else stillMissing, cut.dropped == 0,
                 NoBoundaryToCutAt(messages, missing));
      DrainUnfolds(opening, p, strategy, namespace, recordScope, messages, missing, cut);
      passes := passes + [cut.strategy];
      if cut.dropped == 0 {
        stuck := true;
        p := p.(steps := p.steps + [cut.strategy]);
      } else {
        CutIsARound(pre, strategy, rounds, base, middle, TableOf(store), namespace, closed, limits,
                    messages, counts, next);
        OneMoreNotice(counts.fellBack, cut.notice, recordScope, seenFirst, notice, shown, seen, tracker.seen);
        rounds := rounds + [Round(cut.messages, next)];
        counts := Counts(counts.recovered + |missing|, counts.dropped + cut.dropped, counts.steps + [cut.strategy],
                         counts.fellBack || cut.notice);
        recovered, dropped := recovered + |missing|, dropped + cut.dropped;
        notice := notice || shown;
        messages, patched, missing, repaired := next, nextPatched, stillMissing, cut.messages;
        p := AfterCut(p, cut, namespace, recordScope);
      }
    }
    SoundMissing(pre, messages, missing);
    RoundsEnd(pre, strategy, rounds, base, TableOf(store), namespace, closed, limits, messages, counts);
    PassesDone(none, started, passes, missing, stuck);
    DrainDone(opening, p, strategy, namespace, recordScope, stuck, messages, missing);
  }

  lemma SoundMissing(pre: seq<Message>, messages: seq<Message>, missing: seq<int>)
    requires Sound(pre, messages, missing)
    ensures missing == Violations(messages)
  {
  }

  /** What is left to drain is what there was; nothing if there was nobody to fall back to. */
  ghost predicate DrainsTo(opening: Progress, p: Progress, strategy: MissingStrategy, namespace: Namespace,
                           scope: Scope, stuck: bool)
  {
    if strategy == Recover then Drain(opening, namespace, scope) == (if stuck then p else Drain(p, namespace, scope))
    else p == opening
  }

  lemma NothingDrained(opening: Progress, strategy: MissingStrategy, namespace: Namespace, scope: Scope)
    ensures DrainsTo(opening, opening, strategy, namespace, scope, false)
  {
    hide Drain;
  }

  lemma DrainUnfolds(opening: Progress, p: Progress, strategy: MissingStrategy, namespace: Namespace, scope: Scope,
                     messages: seq<Message>, missing: seq<int>, cut: Cut)
    requires strategy == Recover && missing == Violations(messages) && missing != []
      && cut == CutBack(messages, missing)
    ensures DrainsTo(opening, p, strategy, namespace, scope, false) && p.messages == messages ==>
      if cut.dropped == 0
      then DrainsTo(opening, p.(steps := p.steps + [cut.strategy]), strategy, namespace, scope, true)
      else DrainsTo(opening, AfterCut(p, cut, namespace, scope), strategy, namespace, scope, false)
  {
    hide CutBack, AfterCut, Violations;
  }

  lemma DrainDone(opening: Progress, p: Progress, strategy: MissingStrategy, namespace: Namespace, scope: Scope,
                  stuck: bool, messages: seq<Message>, missing: seq<int>)
    requires missing == Violations(messages) && (missing == [] || strategy != Recover || stuck)
    ensures DrainsTo(opening, p, strategy, namespace, scope, stuck) && p.messages == messages ==>
      p == if strategy == Recover then Drain(opening, namespace, scope) else opening
  {
    hide CutBack, AfterCut, Violations;
  }

  /** The passes of the loop: none if there was nothing to do; at most one if no boundary was on offer at the start. */
  ghost predicate PassesFit(noBoundary: bool, started: bool, passes: seq<Strategy>, missing: seq<int>, stuck: bool) {
    && (!started ==> passes == []) && ContinuedBoundary !in passes && (passes == [] ==> !stuck)
    && (noBoundary ==>
          passes == [] || (passes == [LatestUser] && missing == []) || (passes == [NoUser] && stuck))
  }

  lemma NoPassesYet(noBoundary: bool, started: bool, missing: seq<int>)
    ensures PassesFit(noBoundary, started, [], missing, false)
  {
  }

  lemma PassesGrow(noBoundary: bool, started: bool, passes: seq<Strategy>, missing: seq<int>, strategy: Strategy,
                   still: seq<int>, stuck: bool, none: bool)
    requires PassesFit(noBoundary, started, passes, missing, false) && started && missing != []
    requires strategy != ContinuedBoundary && (stuck <==> strategy == NoUser)
    requires passes == [] ==> none == noBoundary
    requires none ==> strategy == LatestUser || strategy == NoUser
    requires strategy == LatestUser ==> still == []
    ensures PassesFit(noBoundary, started, passes + [strategy], still, stuck)
  {
  }

  lemma PassesDone(noBoundary: bool, started: bool, passes: seq<Strategy>, missing: seq<int>, stuck: bool)
    requires PassesFit(noBoundary, started, passes, missing, stuck) && (started && missing != [] ==> stuck)
    ensures ContinuedBoundary !in passes && (!started ==> passes == [])
    ensures started && noBoundary && (passes == [] ==> missing != []) ==> passes == [LatestUser] || passes == [NoUser]
  {
  }

  /** The notice is shown if some cut fell back to the latest user message and the scope is new; it is then
      remembered. */
  ghost predicate NoticeFollows(fellBack: bool, scope: Scope, before: set<Scope>, notice: bool, after: set<Scope>) {
    (notice <==> fellBack && scope !in before) && after == if fellBack then SeenAfter(before, scope) else before
  }

  lemma NoNoticeYet(scope: Scope, seen: set<Scope>)
    ensures NoticeFollows(false, scope, seen, false, seen)
  {
  }

  lemma OneMoreNotice(fellBack: bool, again: bool, scope: Scope, before: set<Scope>, notice: bool, shown: bool,
                      middle: set<Scope>, after: set<Scope>)
    requires NoticeFollows(fellBack, scope, before, notice, middle)
    requires shown == (again && scope !in middle) && after == if again then SeenAfter(middle, scope) else middle
    ensures NoticeFollows(fellBack || again, scope, before, notice || shown, after)
  {
  }

  /** What a request with thinking goes through: repair, continue from a notice, cut back. */
  method RepairAndRecover(pre: seq<Message>, namespace: Namespace, strategy: MissingStrategy, store: ReasoningStore?,
                          tracker: NoticeTracker)
    returns (messages: seq<Message>, patched: nat, missing: seq<int>, notice: bool, recovered: nat, dropped: int,
             steps: seq<Strategy>, retired: int, ghost repaired: seq<Message>, ghost rounds: seq<Round>,
             ghost counts: Counts)
    requires AllInForm(pre)
    modifies store, tracker
    ensures ClosedOf(store) == old(ClosedOf(store))
    ensures Sound(pre, messages, missing)
    ensures strategy == Recover && missing != [] ==> LastUser(pre) == -1
    ensures InRounds(pre, strategy, rounds, old(TableOf(store)), TableOf(store), namespace, ClosedOf(store),
                     LimitsOf(store), messages, counts)
    ensures Ended(pre, strategy, rounds) && counts.recovered == recovered && counts.dropped == dropped
    ensures steps == counts.steps + if strategy == Recover && missing != [] then [NoUser] else []
    ensures NoticeFollows(counts.fellBack, ConversationScope(pre, namespace), old(tracker.seen), notice, tracker.seen)
    ensures Outcome(repaired, messages, patched, missing, true, true)
    ensures LatestUser !in steps && RecoveryBoundary !in steps ==> repaired == FormAfter(pre, steps)
    ensures AllSettled(pre) ==> StepsAreOneCut(steps)
    ensures retired == RetiredBy(pre, ContinuedBoundary in steps)
    ensures old(Steady(store)) ==>
      Progress(messages, ContentsOf(store), tracker.seen, notice, recovered, dropped, steps)
      == var opening := Opening(pre, namespace, strategy, old(ContentsOf(store)), old(tracker.seen));
        if strategy == Recover then Drain(opening, namespace, ConversationScope(pre, namespace)) else opening
  {
    hide RetiredBy, Violations, Opening, Drain, LastUser, KeepsEnds, OthersSettled, AllSettled, AllInForm, ComesFrom,
      FormAfter, InRounds, Ended, NoticeFollows, Outcome;
    var recordScope := ConversationScope(pre, namespace);
    ghost var opening, base := Opening(pre, namespace, strategy, ContentsOf(store), tracker.seen), TableOf(store);
    messages, patched, missing, steps, retired, rounds := RepairOrContinue(pre, namespace, strategy, store,
                                                                           tracker.seen);
    var passes;
    messages, patched, missing, notice, recovered, dropped, passes, repaired, rounds, counts :=
      RecoverUntilComplete(pre, messages, patched, missing, namespace, recordScope, strategy, store, tracker,
                           opening.(steps := steps), FormAfter(pre, steps), rounds, base);
    FormAfterPasses(pre, steps, passes);
    steps := steps + passes;
  }

  method PrepareUpstreamRequest(raw: seq<Message>, thinking: Thinking, namespace: Namespace, strategy: MissingStrategy,
                                store: ReasoningStore?, tracker: NoticeTracker)
    returns (request: PreparedRequest, ghost active: seq<Message>, ghost repaired: seq<Message>,
             ghost rounds: seq<Round>, ghost counts: Counts)
    modifies store, tracker
    // DeepSeek's rule, whatever the store does: the reported number is the number of violating messages sent ...
    ensures thinking.Enabled? ==> request.missing == |Violations(request.messages)|
    // ... and in recover mode it is zero unless there is no user message to fall back to.
    ensures thinking.Enabled? && strategy == Recover && request.missing != 0 ==>
      LastUser(NormalizedAll(raw, true)) == -1
    // The leading system messages and the latest user message are sent as they came.
    ensures thinking.Enabled? ==> KeepsEnds(NormalizedAll(raw, true), request.messages)
    // What is sent is recovery messages and messages of the request, each at most once and in their order.
    ensures thinking.Enabled? ==> ComesFrom(NormalizedAll(raw, true), active)
    // Whatever is sent besides recovery messages carries the fields and the words of the client's own messages, in
    // their order; the leading system messages and the latest user message are among them.
    ensures Sends(raw, request.messages) && EndsAreSent(raw, request.messages)
    // The patched messages are counted over the transcript repaired last: the request itself unless it was cut.
    ensures thinking.Enabled? ==> Outcome(repaired, active, request.patched, Violations(active), true, true)
    ensures thinking.Enabled? && LatestUser !in request.steps && RecoveryBoundary !in request.steps ==>
      repaired == FormAfter(NormalizedAll(raw, true), request.steps)
    // Contents that strip clean need at most one cut, which falls back to the latest user message.
    ensures thinking.Enabled? && AllStripClean(raw) ==> StepsAreOneCut(request.steps)
    // Whatever the store evicts: rounds of repair from what it holds by then, until nothing is missing or nothing can
    // be cut, and the counts, the steps and the notice that these add up to.
    ensures thinking.Enabled? ==>
      InRounds(NormalizedAll(raw, true), strategy, rounds, old(TableOf(store)), TableOf(store), namespace,
               ClosedOf(store), LimitsOf(store), active, counts)
    ensures thinking.Enabled? ==> Ended(NormalizedAll(raw, true), strategy, rounds)
    ensures thinking.Enabled? ==>
      && request.recovered == counts.recovered && request.dropped == counts.dropped
      && request.steps == counts.steps + if strategy == Recover && request.missing != 0 then [NoUser] else []
    ensures thinking.Enabled? ==>
      NoticeFollows(counts.fellBack, ConversationScope(NormalizedAll(raw, true), namespace), old(tracker.seen),
                    request.notice, tracker.seen)
    ensures thinking.Disabled? ==> TableOf(store) == old(TableOf(store)) && !request.notice
    // With a store that forgets nothing, everything is determined.
    ensures thinking.Enabled? && old(Steady(store)) ==>
      Progress(active, ContentsOf(store), tracker.seen, request.notice, request.recovered, request.dropped,
               request.steps)
      == PreparedWithThinking(raw, namespace, strategy, old(ContentsOf(store)), old(tracker.seen))
    // The response is recorded for the transcript as it came first of all.
    ensures request.contexts != [] && request.contexts[0].messages == NormalizedAll(raw, thinking.Enabled?)
    ensures forall c <- request.contexts :: c.scope == ConversationScope(c.messages, namespace)
    ensures request.contexts == Contexts(NormalizedAll(raw, thinking.Enabled?), active, namespace)
    ensures request.messages == AllWithoutNotice(active)
    ensures thinking.Enabled? ==>
      request.retired == RetiredBy(NormalizedAll(raw, true), ContinuedBoundary in request.steps)
    ensures thinking.Disabled? ==>
      active == NormalizedAll(NormalizedAll(raw, false), false)
      && request.patched == 0 && request.missing == 0 && request.steps == []
    ensures thinking.Disabled? ==> ContentsOf(store) == old(ContentsOf(store)) && tracker.seen == old(tracker.seen)
  {
    hide RetiredBy, Violations, Opening, Drain, NormalizedAll, LastUser, KeepsEnds, FirstPerScope, OthersSettled,
      AllSettled, AllInForm, ComesFrom, FormAfter, Sends, EndsAreSent, InRounds, Ended, Repairs, AllCarry,
      NoticeFollows, StepsAreOneCut, AllStripClean;
    var pre, _, _ := NormalizeMessages(raw, null, namespace, false, thinking.Enabled?);
    var recordScope := ConversationScope(pre, namespace);
    var messages, patched, missing, notice, recovered, dropped, steps, retired;
    repaired, rounds, counts := pre, [], Counts(0, 0, [], false);
    ghost var base := TableOf(store);
    if thinking.Enabled? {
      NormalizedInForm(raw);
      if AllStripClean(raw) { NormalizedAllIsSettled(raw, true); }
      messages, patched, missing, notice, recovered, dropped, steps, retired, repaired, rounds, counts :=
        RepairAndRecover(pre, namespace, strategy, store, tracker);
    } else {
      messages, patched, missing := NormalizeMessages(pre, store, namespace, false, false);
      notice, recovered, dropped, steps, retired := false, 0, 0, [], 0;
    }
    active := messages;
    var activeScope := ConversationScope(messages, namespace);
    var contexts := ResponseRecordingContexts([Some(Context(recordScope, pre)), Some(Context(activeScope, messages))]);
    var outgoing := StripRecoveryNoticeForUpstream(messages);
    if thinking.Enabled? {
      SentAsPrepared(pre, messages, outgoing);
      SelectionIsSent(raw, messages);
      KeptEndsAreSent(raw, outgoing);
    } else {
      PlainIsSent(raw);
      PlainEndsAreSent(raw, outgoing);
    }
    ContextsAreOwn(pre, messages, namespace);
    request := PreparedRequest(outgoing, patched, |missing|, recovered, dropped, notice, contexts, steps, retired);
  }

  /** The latest user message of what is sent carries the message. */
  ghost predicate LatestUserCarries(sent: seq<Message>, raw: Message) {
    exists v :: 0 <= v < |sent| && sent[v].role == User && Carries(sent[v], raw) && NoUserAfter(sent, v)
  }

  ghost predicate NoUserAfter(sent: seq<Message>, v: int) {
    forall i :: v < i < |sent| && 0 <= i ==> sent[i].role != User
  }

  /** The leading system messages and the latest user message go out with their fields and words. */
  ghost predicate EndsAreSent(raw: seq<Message>, sent: seq<Message>) {
    && (forall i :: IsLeadingSystem(raw, i) ==> i < |sent| && Carries(sent[i], raw[i]))
    && forall u :: IsLatestUser(raw, u) ==> LatestUserCarries(sent, raw[u])
  }

  ghost predicate IsLeadingSystem(raw: seq<Message>, i: int) {
    0 <= i < |raw| && forall j :: 0 <= j <= i ==> raw[j].role == System
  }

  /** A message without a role is a user's. */
  ghost predicate IsLatestUser(raw: seq<Message>, u: int) {
    && 0 <= u < |raw| && (raw[u].role == User || raw[u].role == Unset)
    && forall i :: u < i < |raw| ==> raw[i].role != User && raw[i].role != Unset
  }

  lemma NormalizedLatestUser(raw: seq<Message>, keep: bool, u: int)
    requires IsLatestUser(raw, u)
    ensures LastUser(NormalizedAll(raw, keep)) == u
  {
    hide NormalizedContent, NormalizedCalls;
    LastUserIs(NormalizedAll(raw, keep), u);
  }

  lemma NormalizedLeading(raw: seq<Message>, keep: bool, i: nat)
    requires IsLeadingSystem(raw, i)
    ensures i < |LeadingSystem(NormalizedAll(raw, keep))|
  {
    hide NormalizedContent, NormalizedCalls;
    var pre := NormalizedAll(raw, keep);
    forall j | 0 <= j <= i ensures pre[j].role == System { assert raw[j].role == System; }
    var lead := |LeadingSystem(pre)|;
    assert lead < |pre| ==> pre[lead].role != System;
  }

  lemma KeptEndsAreSent(raw: seq<Message>, sent: seq<Message>)
    requires KeepsEnds(NormalizedAll(raw, true), sent)
    ensures EndsAreSent(raw, sent)
  {
    hide Normalized, Carries, KeepsEnds, LatestUserCarries;
    forall i | IsLeadingSystem(raw, i) ensures i < |sent| && Carries(sent[i], raw[i]) {
      NormalizedLeading(raw, true, i);
      NormalizedCarries(raw[i], true);
      KeptLeading(NormalizedAll(raw, true), sent, i);
    }
    forall u | IsLatestUser(raw, u) ensures LatestUserCarries(sent, raw[u]) {
      NormalizedLatestUser(raw, true, u);
      NormalizedCarries(raw[u], true);
      KeptLatestUser(NormalizedAll(raw, true), sent, raw[u]);
    }
  }

  lemma KeptLeading(pre: seq<Message>, sent: seq<Message>, i: nat)
    requires KeepsEnds(pre, sent) && i < |LeadingSystem(pre)|
    ensures i < |sent| && i < |pre| && sent[i] == pre[i]
  {
    assert LeadingSystem(sent)[i] == LeadingSystem(pre)[i];
  }

  lemma KeptLatestUser(pre: seq<Message>, sent: seq<Message>, raw: Message)
    requires KeepsEnds(pre, sent) && LastUser(pre) != -1 && Carries(pre[LastUser(pre)], raw)
    ensures LatestUserCarries(sent, raw)
  {
    hide Carries, LeadingSystem;
    assert NoUserAfter(sent, LastUser(sent));
  }

  lemma PlainEndsAreSent(raw: seq<Message>, sent: seq<Message>)
    requires sent == AllWithoutNotice(NormalizedAll(NormalizedAll(raw, false), false))
    ensures EndsAreSent(raw, sent)
  {
    hide Normalized, Carries, WithoutNotice;
    var once, twice := NormalizedAll(raw, false), NormalizedAll(NormalizedAll(raw, false), false);
    forall i | 0 <= i < |raw| && raw[i].role in {System, User, Unset}
      ensures sent[i] == once[i] && Carries(sent[i], raw[i])
    {
      OtherStaysTheSame(raw[i]);
      NormalizedCarries(raw[i], false);
    }
    forall i | 0 <= i < |raw| ensures sent[i].role == NormalizedRole(raw[i].role) { SentRole(raw[i]); }
    forall u | IsLatestUser(raw, u) ensures LatestUserCarries(sent, raw[u]) {
      assert sent[u].role == User && NoUserAfter(sent, u);
    }
  }

  lemma OtherStaysTheSame(raw: Message)
    requires raw.role in {System, User, Unset}
    ensures WithoutNotice(Normalized(Normalized(raw, false), false)) == Normalized(raw, false)
  {
    NormalizedTwice(raw);
    OthersAreTheSame(Normalized(Normalized(raw, false), false), Normalized(raw, false));
    WithoutNoticeOfOthers(Normalized(raw, false));
  }

  lemma SentRole(raw: Message)
    ensures WithoutNotice(Normalized(Normalized(raw, false), false)).role == NormalizedRole(raw.role)
  {
    hide NormalizedContent, NormalizedCalls;
  }

  lemma ContextsAreOwn(pre: seq<Message>, active: seq<Message>, namespace: Namespace)
    ensures var contexts := Contexts(pre, active, namespace);
      && contexts != [] && contexts[0].messages == pre
      && forall c <- contexts :: c.scope == ConversationScope(c.messages, namespace)
  {
    hide ConversationScope;
    var a: Option<Context> := Some(Context(ConversationScope(pre, namespace), pre));
    var b: Option<Context> := Some(Context(ConversationScope(active, namespace), active));
    var one: seq<Option<Context>> := [a];
    assert [a, b][..1] == one && one[..0] == [];
    assert FirstPerScope(one) == [a.value];
  }

  /** Taking the notices out changes neither what is missing nor the two ends. */
  lemma SentAsPrepared(pre: seq<Message>, messages: seq<Message>, outgoing: seq<Message>)
    requires outgoing == AllWithoutNotice(messages) && KeepsEnds(pre, messages)
    ensures Violations(outgoing) == Violations(messages) && KeepsEnds(pre, outgoing)
  {
    ViolationsOfSameShape(outgoing, messages);
    SameOthersKeepEnds(messages, outgoing);
  }
}
