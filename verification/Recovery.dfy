/** Cutting a transcript back when reasoning cannot be restored. */
module Recovery {
  import opened Collections
  import opened Options
  import opened ThinkingBlocks
  import opened Transcript
  import opened Keys

  // ---------------------------------------------------------------- searching

  predicate HasRecoveryNotice(message: Message) {
    message.role == Assistant && message.content.Some? && message.content.value.Text?
    && RecoveryNoticeText() <= message.content.value.text
  }

  function LastNotice(messages: seq<Message>): (index: int)
    ensures -1 <= index < |messages|
    ensures index >= 0 ==> HasRecoveryNotice(messages[index])
    ensures forall i :: index < i < |messages| ==> !HasRecoveryNotice(messages[i])
  {
    if messages == [] then -1
    else if HasRecoveryNotice(messages[|messages| - 1]) then |messages| - 1
    else LastNotice(messages[..|messages| - 1])
  }

  predicate AnyBefore(missing: seq<int>, index: int) {
    exists m <- missing :: m < index
  }

  /** The last notice that comes after some missing index. */
  function LastNoticeAfterMissing(messages: seq<Message>, missing: seq<int>): (index: int)
    ensures -1 <= index < |messages|
    ensures index >= 0 ==> HasRecoveryNotice(messages[index]) && AnyBefore(missing, index)
    ensures forall i :: index < i < |messages| && AnyBefore(missing, i) ==> !HasRecoveryNotice(messages[i])
  {
    if messages == [] then -1
    else
      var last := |messages| - 1;
      if HasRecoveryNotice(messages[last]) && AnyBefore(missing, last) then last
      else LastNoticeAfterMissing(messages[..last], missing)
  }

  function LeadingSystem(messages: seq<Message>): (leading: seq<Message>)
    ensures |leading| <= |messages| && leading == messages[..|leading|]
    ensures forall i :: 0 <= i < |leading| ==> messages[i].role == System
    ensures |leading| < |messages| ==> messages[|leading|].role != System
  {
    if messages == [] || messages[0].role != System then []
    else
      var rest := LeadingSystem(messages[1..]);
      assert messages == [messages[0]] + messages[1..];
      [messages[0]] + rest
  }

  lemma LeadingFrom(messages: seq<Message>, i: nat)
    requires i <= |messages|
    ensures LeadingSystem(messages[i..])
         == if i < |messages| && messages[i].role == System then [messages[i]] + LeadingSystem(messages[i + 1..])
            else []
  {
    if i < |messages| { assert messages[i..][1..] == messages[i + 1..]; }
  }

  method LeadingSystemMessages(messages: seq<Message>) returns (leading: seq<Message>)
    ensures leading == LeadingSystem(messages)
  {
    hide LeadingSystem;
    leading := [];
    var i := 0;
    assert messages[0..] == messages;
    while i < |messages|
      invariant 0 <= i <= |messages|
      invariant leading + LeadingSystem(messages[i..]) == LeadingSystem(messages)
    {
      LeadingFrom(messages, i);
      if messages[i].role != System { return; }
      Associates(leading, [messages[i]], LeadingSystem(messages[i + 1..]));
      leading := leading + [messages[i]];
      i := i + 1;
    }
    LeadingFrom(messages, i);
  }

  // ---------------------------------------------------------------- cutting at a boundary

  /** The user message nearest before `boundary`, if there is one. */
  function ContextUser(messages: seq<Message>, boundary: nat): (context: seq<Message>)
    requires boundary <= |messages|
    ensures |context| <= 1 && (context != [] ==> context[0].role == User)
  {
    var user := LastUser(messages[..boundary]);
    if user == -1 then [] else [messages[user]]
  }

  ghost function BoundaryHead(messages: seq<Message>, boundary: nat): (head: seq<Message>)
    requires boundary <= |messages|
    ensures forall i :: 0 <= i < |head| ==> head[i].role != Assistant
  {
    LeadingSystem(messages) + [RecoverySystemMessage()] + ContextUser(messages, boundary)
  }

  ghost function FromBoundary(messages: seq<Message>, boundary: nat): seq<Message>
    requires boundary <= |messages|
  {
    BoundaryHead(messages, boundary) + messages[boundary..]
  }

  ghost function Retired(messages: seq<Message>, boundary: nat): int
    requires boundary <= |messages|
  {
    boundary - |LeadingSystem(messages)| - |ContextUser(messages, boundary)|
  }

  ghost function FromLatestUser(messages: seq<Message>, user: nat): seq<Message>
    requires user < |messages|
  {
    LeadingSystem(messages) + [RecoverySystemMessage(), messages[user]]
  }

  datatype Strategy = ContinuedBoundary | RecoveryBoundary | LatestUser | NoUser

  datatype Boundary = Boundary(messages: seq<Message>, retired: int)

  /** What `active_messages_from_recovery_boundary` returns. */
  ghost function ActiveFromBoundary(messages: seq<Message>): Option<Boundary> {
    var boundary := LastNotice(messages);
    if boundary == -1 then None
    else Some(Boundary(FromBoundary(messages, boundary),
                       if Retired(messages, boundary) < 0 then 0 else Retired(messages, boundary)))
  }

  method ActiveMessagesFromRecoveryBoundary(messages: seq<Message>) returns (boundary: Option<Boundary>)
    ensures boundary == ActiveFromBoundary(messages)
  {
    var index := LastNotice(messages);
    if index == -1 { return None; }
    var leading := LeadingSystemMessages(messages);
    var tail := ContextUser(messages, index) + messages[index..];
    assert leading + [RecoverySystemMessage()] + tail == FromBoundary(messages, index);
    var retired := index - |leading| - |ContextUser(messages, index)|;
    return Some(Boundary(leading + [RecoverySystemMessage()] + tail, if retired < 0 then 0 else retired));
  }

  datatype Cut = Cut(messages: seq<Message>, dropped: int, notice: bool, strategy: Strategy)

  /** What `recover_messages_from_missing_reasoning` returns. */
  ghost function CutBack(messages: seq<Message>, missing: seq<int>): (cut: Cut)
    ensures cut.strategy != ContinuedBoundary
  {
    var boundary := LastNoticeAfterMissing(messages, missing);
    if boundary != -1 then Cut(FromBoundary(messages, boundary), Retired(messages, boundary), false, RecoveryBoundary)
    else if LastUser(messages) == -1 then Cut(messages, 0, false, NoUser)
    else Cut(FromLatestUser(messages, LastUser(messages)), |messages| - |LeadingSystem(messages)| - 1, true, LatestUser)
  }

  /** Everything from the last such notice on, behind the leading system messages, the recovery message and the
      nearest user message before the notice. */
  ghost predicate CutAtNotice(messages: seq<Message>, missing: seq<int>, cut: seq<Message>) {
    exists i, m, before :: m in missing && m < i < |messages| && 0 <= i && HasRecoveryNotice(messages[i])
      && (forall j, n :: i < j < |messages| && n in missing && n < j ==> !HasRecoveryNotice(messages[j]))
      && IsNearestUser(messages, i, before)
      && cut == LeadingSystem(messages) + [RecoverySystemMessage()] + before + messages[i..]
  }

  /** The last user message before `i`, if there is one. */
  ghost predicate IsNearestUser(messages: seq<Message>, i: int, user: seq<Message>)
    requires 0 <= i <= |messages|
  {
    if forall j :: 0 <= j < i ==> messages[j].role != User then user == []
    else exists u :: 0 <= u < i && messages[u].role == User && user == [messages[u]]
           && forall j :: u < j < i ==> messages[j].role != User
  }

  ghost predicate CutToLatestUser(messages: seq<Message>, cut: seq<Message>) {
    exists u :: 0 <= u < |messages| && messages[u].role == User
      && (forall j :: u < j < |messages| ==> messages[j].role != User)
      && cut == LeadingSystem(messages) + [RecoverySystemMessage(), messages[u]]
  }

  lemma ContextUserIsNearest(messages: seq<Message>, i: nat)
    requires i <= |messages|
    ensures IsNearestUser(messages, i, ContextUser(messages, i))
  {
    var user := LastUser(messages[..i]);
    forall j | 0 <= j < i ensures messages[..i][j] == messages[j] {}
    if user == -1 {
      forall j | 0 <= j < i ensures messages[j].role != User { assert messages[..i][j].role != User; }
    } else {
      assert messages[user].role == User;
      forall j | user < j < i ensures messages[j].role != User { assert messages[..i][j].role != User; }
    }
  }

  /** To the last notice with something missing before it; else to the latest user message; else not at all. */
  ghost predicate CutAsItShould(messages: seq<Message>, missing: seq<int>, cut: Cut) {
    if exists i, m :: m in missing && m < i < |messages| && 0 <= i && HasRecoveryNotice(messages[i])
    then cut.strategy == RecoveryBoundary && !cut.notice && CutAtNotice(messages, missing, cut.messages)
    else if exists u :: 0 <= u < |messages| && messages[u].role == User
    then cut.strategy == LatestUser && cut.notice && CutToLatestUser(messages, cut.messages)
    else cut == Cut(messages, 0, false, NoUser)
  }

  lemma CutBackExactly(messages: seq<Message>, missing: seq<int>)
    ensures CutAsItShould(messages, missing, CutBack(messages, missing))
  {
    hide HasRecoveryNotice, LeadingSystem, RecoverySystemMessage, Retired, ContextUser, LastUser,
      LastNoticeAfterMissing, IsNearestUser;
    var boundary, user := LastNoticeAfterMissing(messages, missing), LastUser(messages);
    if boundary != -1 {
      ContextUserIsNearest(messages, boundary);
      assert AnyBefore(missing, boundary);
      var m :| m in missing && m < boundary;
      forall j, n | boundary < j < |messages| && n in missing && n < j ensures !HasRecoveryNotice(messages[j]) {
        assert AnyBefore(missing, j);
      }
      assert CutAtNotice(messages, missing, CutBack(messages, missing).messages);
    } else {
      forall i, m | m in missing && m < i < |messages| && 0 <= i ensures !HasRecoveryNotice(messages[i]) {
        assert AnyBefore(missing, i);
      }
      if user != -1 { assert messages[user].role == User; }
    }
  }

  method RecoverMessagesFromMissingReasoning(messages: seq<Message>, missing: seq<int>) returns (cut: Cut)
    ensures cut == CutBack(messages, missing)
    ensures CutAsItShould(messages, missing, cut)
  {
    hide CutAsItShould;
    CutBackExactly(messages, missing);
    var boundary := LastNoticeAfterMissing(messages, missing);
    var leading := LeadingSystemMessages(messages);
    if boundary != -1 {
      var tail := ContextUser(messages, boundary) + messages[boundary..];
      assert leading + [RecoverySystemMessage()] + tail == FromBoundary(messages, boundary);
      return Cut(leading + [RecoverySystemMessage()] + tail, boundary - |leading| - |ContextUser(messages, boundary)|,
                 false, RecoveryBoundary);
    }
    var user := LastUser(messages);
    if user == -1 { return Cut(messages, 0, false, NoUser); }
    assert leading + [RecoverySystemMessage()] + [messages[user]] == FromLatestUser(messages, user);
    return Cut(leading + [RecoverySystemMessage()] + [messages[user]], |messages| - |leading| - 1, true, LatestUser);
  }

  // ---------------------------------------------------------------- the notice is not sent upstream

  function WithoutNotice(message: Message): Message {
    if HasRecoveryNotice(message)
    then message.(content := Some(Text(SkipNewlines(message.content.value.text[|RecoveryNoticeText()|..]))))
    else message
  }

  ghost function AllWithoutNotice(messages: seq<Message>): (stripped: seq<Message>)
    ensures |stripped| == |messages|
  {
    seq(|messages|, i requires 0 <= i < |messages| => WithoutNotice(messages[i]))
  }

  method StripRecoveryNoticeForUpstream(messages: seq<Message>) returns (stripped: seq<Message>)
    ensures stripped == AllWithoutNotice(messages)
  {
    stripped := [];
    for i := 0 to |messages|
      invariant stripped == AllWithoutNotice(messages[..i])
    {
      assert AllWithoutNotice(messages[..i + 1]) == AllWithoutNotice(messages[..i]) + [WithoutNotice(messages[i])];
      stripped := stripped + [WithoutNotice(messages[i])];
    }
    assert messages[..|messages|] == messages;
  }

  // ---------------------------------------------------------------- what a cut keeps

  ghost predicate Increasing(indices: seq<int>) {
    forall i, j :: 0 <= i < j < |indices| ==> indices[i] < indices[j]
  }

  ghost function Pick(messages: seq<Message>, indices: seq<int>): (picked: seq<Message>)
    requires forall k :: 0 <= k < |indices| ==> 0 <= indices[k] < |messages|
    ensures |picked| == |indices|
  {
    seq(|indices|, k requires 0 <= k < |indices| => messages[indices[k]])
  }

  /** `after` is the leading system messages of `before`, the recovery message, and some of the other messages of
      `before` in their order; `dropped` counts the ones left out, and the latest user message is kept. */
  ghost predicate Conserves(before: seq<Message>, after: seq<Message>, dropped: int, kept: seq<int>) {
    var lead := |LeadingSystem(before)|;
    && Increasing(kept)
    && (forall k :: 0 <= k < |kept| ==> lead <= kept[k] < |before|)
    && after == LeadingSystem(before) + [RecoverySystemMessage()] + Pick(before, kept)
    && dropped == |before| - lead - |kept|
    && (LastUser(before) != -1 ==> LastUser(before) in kept)
  }

  ghost function Range(from: nat, to: nat): seq<int>
    requires from <= to
  {
    seq(to - from, i => from + i)
  }

  lemma PickTail(messages: seq<Message>, first: seq<int>, boundary: nat)
    requires boundary <= |messages| && forall k :: 0 <= k < |first| ==> 0 <= first[k] < boundary
    ensures Pick(messages, first + Range(boundary, |messages|)) == Pick(messages, first) + messages[boundary..]
  {
    var tail := Range(boundary, |messages|);
    assert forall k :: 0 <= k < |tail| ==> boundary <= tail[k] < |messages|;
    assert Pick(messages, first + tail) == Pick(messages, first) + Pick(messages, tail);
    assert Pick(messages, tail) == messages[boundary..];
  }

  /** The messages a boundary cut keeps besides the leading system messages. */
  ghost function KeptAtBoundary(messages: seq<Message>, boundary: nat): seq<int>
    requires boundary <= |messages|
  {
    var user := LastUser(messages[..boundary]);
    (if user == -1 then [] else [user]) + Range(boundary, |messages|)
  }

  lemma KeptAtBoundaryIsSound(messages: seq<Message>, boundary: nat)
    requires boundary < |messages| && messages[boundary].role == Assistant
    ensures var kept := KeptAtBoundary(messages, boundary);
      && Increasing(kept)
      && (forall k :: 0 <= k < |kept| ==> |LeadingSystem(messages)| <= kept[k] < |messages|)
      && (LastUser(messages) != -1 ==> LastUser(messages) in kept)
  {
    var kept, latest := KeptAtBoundary(messages, boundary), LastUser(messages);
    var user := LastUser(messages[..boundary]);
    var first := if user == -1 then [] else [user];
    var tail := Range(boundary, |messages|);
    assert forall k :: 0 <= k < |tail| ==> tail[k] == boundary + k;
    assert user != -1 ==> messages[user].role == User;
    if latest >= boundary {
      assert kept[|first| + latest - boundary] == latest;
    } else if latest != -1 {
      assert messages[..boundary][latest].role == User;
      assert user == latest && kept[0] == latest;
    }
  }

  lemma BoundaryConserves(messages: seq<Message>, boundary: nat)
    requires boundary < |messages| && messages[boundary].role == Assistant
    ensures Conserves(messages, FromBoundary(messages, boundary), Retired(messages, boundary),
                      KeptAtBoundary(messages, boundary))
    ensures Retired(messages, boundary) >= 0
    ensures |FromBoundary(messages, boundary)| == |messages| + 1 - Retired(messages, boundary)
  {
    hide LeadingSystem, ContextUser, Pick, RecoverySystemMessage, LastUser, KeptAtBoundary, Increasing;
    KeptAtBoundaryIsSound(messages, boundary);
    PickedAtBoundary(messages, boundary);
    Associates(LeadingSystem(messages) + [RecoverySystemMessage()], ContextUser(messages, boundary),
               messages[boundary..]);
    assert Conserves(messages, FromBoundary(messages, boundary), Retired(messages, boundary),
                     KeptAtBoundary(messages, boundary));
    KeptIsNotMore(messages, boundary);
  }

  /** The kept messages all come after the leading system messages, so there are at most that many. */
  lemma KeptIsNotMore(messages: seq<Message>, boundary: nat)
    requires boundary < |messages| && messages[boundary].role == Assistant
    ensures Retired(messages, boundary) >= 0
  {
    var user, lead := LastUser(messages[..boundary]), |LeadingSystem(messages)|;
    assert lead <= boundary;
    if user != -1 { assert messages[user].role == User; }
  }

  lemma PickedAtBoundary(messages: seq<Message>, boundary: nat)
    requires boundary <= |messages|
    requires forall k :: 0 <= k < |KeptAtBoundary(messages, boundary)| ==>
      0 <= KeptAtBoundary(messages, boundary)[k] < |messages|
    ensures Pick(messages, KeptAtBoundary(messages, boundary)) == ContextUser(messages, boundary) + messages[boundary..]
    ensures |KeptAtBoundary(messages, boundary)| == |ContextUser(messages, boundary)| + |messages| - boundary
  {
    var user := LastUser(messages[..boundary]);
    var first := if user == -1 then [] else [user];
    PickTail(messages, first, boundary);
    assert Pick(messages, first) == ContextUser(messages, boundary);
  }

  /** A pass that drops something conserves the system messages, the latest user message and the order. */
  lemma CutConserves(messages: seq<Message>, missing: seq<int>) returns (kept: seq<int>)
    ensures var cut := CutBack(messages, missing);
      if cut.strategy == NoUser then cut.messages == messages
      else Conserves(messages, cut.messages, cut.dropped, kept) && |cut.messages| == |messages| + 1 - cut.dropped
  {
    var boundary := LastNoticeAfterMissing(messages, missing);
    var user := LastUser(messages);
    kept := [];
    if boundary != -1 {
      BoundaryConserves(messages, boundary);
      kept := KeptAtBoundary(messages, boundary);
    } else if user != -1 {
      kept := [user];
      assert Pick(messages, kept) == [messages[user]];
      assert FromLatestUser(messages, user)
          == LeadingSystem(messages) + [RecoverySystemMessage()] + Pick(messages, kept);
    }
  }

  // ---------------------------------------------------------------- the measure of the recovery loop

  ghost function Assistants(messages: seq<Message>): nat {
    if messages == [] then 0
    else Assistants(messages[..|messages| - 1]) + if messages[|messages| - 1].role == Assistant then 1 else 0
  }

  lemma {:induction false} AssistantsConcat(a: seq<Message>, b: seq<Message>)
    ensures Assistants(a + b) == Assistants(a) + Assistants(b)
  {
    if b == [] {
      assert a + b == a;
    } else {
      assert (a + b)[..|a + b| - 1] == a + b[..|b| - 1];
      AssistantsConcat(a, b[..|b| - 1]);
    }
  }

  lemma {:induction false} NoAssistants(messages: seq<Message>)
    requires forall i :: 0 <= i < |messages| ==> messages[i].role != Assistant
    ensures Assistants(messages) == 0
  {
    if messages != [] { NoAssistants(messages[..|messages| - 1]); }
  }

  lemma {:induction false} SomeAssistant(messages: seq<Message>, i: nat)
    requires i < |messages| && messages[i].role == Assistant
    ensures Assistants(messages) > 0
  {
    if i < |messages| - 1 { SomeAssistant(messages[..|messages| - 1], i); }
  }

  lemma BoundaryAssistants(messages: seq<Message>, boundary: nat)
    requires boundary <= |messages|
    ensures Assistants(FromBoundary(messages, boundary)) == Assistants(messages[boundary..])
  {
    var head := BoundaryHead(messages, boundary);
    NoAssistants(head);
    AssistantsConcat(head, messages[boundary..]);
  }

  lemma BoundaryCutDropsMessages(messages: seq<Message>, boundary: nat, m: nat)
    requires m < boundary < |messages| && messages[m].role == Assistant && messages[boundary].role == Assistant
    ensures Retired(messages, boundary) > 0
  {
    var user := LastUser(messages[..boundary]);
    assert user != -1 ==> messages[user].role == User;
  }

  lemma BoundaryCutDropsAssistants(messages: seq<Message>, boundary: nat, m: nat)
    requires m < boundary < |messages| && messages[m].role == Assistant
    ensures Assistants(FromBoundary(messages, boundary)) < Assistants(messages)
  {
    var before, after := messages[..boundary], messages[boundary..];
    assert before[m].role == Assistant;
    SomeAssistant(before, m);
    assert messages == before + after;
    AssistantsConcat(before, after);
    BoundaryAssistants(messages, boundary);
  }

  lemma LatestUserCutDropsAll(messages: seq<Message>, user: nat, m: nat)
    requires user < |messages| && messages[user].role == User
    requires m < |messages| && messages[m].role == Assistant
    ensures Assistants(FromLatestUser(messages, user)) == 0 < Assistants(messages)
    ensures |messages| - |LeadingSystem(messages)| - 1 > 0
  {
    SomeAssistant(messages, m);
    NoAssistants(FromLatestUser(messages, user));
  }

  /** A pass makes no progress exactly when there is no user message to fall back to; otherwise it drops messages, at
      least one of them an assistant message. */
  lemma CutMakesProgress(messages: seq<Message>, missing: seq<int>)
    requires missing != [] && forall m <- missing :: 0 <= m < |messages| && messages[m].role == Assistant
    ensures var cut := CutBack(messages, missing);
      && (cut.strategy == NoUser <==> cut.dropped == 0)
      && (cut.strategy == NoUser ==> LastUser(messages) == -1)
      && (cut.strategy != NoUser ==> cut.dropped > 0 && Assistants(cut.messages) < Assistants(messages))
      && (cut.strategy == LatestUser ==> Assistants(cut.messages) == 0)
  {
    var boundary, user := LastNoticeAfterMissing(messages, missing), LastUser(messages);
    var cut := CutBack(messages, missing);
    if boundary != -1 {
      assert cut == Cut(FromBoundary(messages, boundary), Retired(messages, boundary), false, RecoveryBoundary);
      var m :| m in missing && m < boundary;
      BoundaryCutDropsMessages(messages, boundary, m);
      BoundaryCutDropsAssistants(messages, boundary, m);
    } else if user != -1 {
      assert cut == Cut(FromLatestUser(messages, user), |messages| - |LeadingSystem(messages)| - 1, true, LatestUser);
      var m := missing[0];
      assert m in missing;
      LatestUserCutDropsAll(messages, user, m);
    }
  }
}
