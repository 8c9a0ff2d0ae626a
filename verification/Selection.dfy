/** Where the messages of an outgoing request come from. */
module Selection {
  import opened Options
  import opened Transcript
  import opened Keys
  import opened Normalize
  import opened Recovery

  /** Equal up to the contents and the reasoning of assistants. */
  ghost predicate OnlyTextsDiffer(a: Message, b: Message) {
    && a.(content := None, reasoning := Absent) == b.(content := None, reasoning := Absent)
    && (a.role != Assistant ==> a == b)
  }

  /** Normalising again changes at most the texts of assistants. */
  ghost predicate AllInForm(messages: seq<Message>) {
    forall i :: 0 <= i < |messages| ==> OnlyTextsDiffer(Normalized(messages[i], true), messages[i])
  }

  /** A message with its reasoning restored; if stripping is not stable on its transcript, the text of an assistant
      may have been stripped again. */
  ghost predicate SentFor(message: Message, source: Message, clean: bool) {
    if clean then OnlyReasoningDiffers(message, source) else OnlyTextsDiffer(message, source)
  }

  /** `after` is made of recovery messages, marked -1, and messages of `before` in their order, each at most once. */
  ghost predicate Selects(before: seq<Message>, after: seq<Message>, chosen: seq<int>, clean: bool) {
    && |chosen| == |after|
    && (forall k :: 0 <= k < |chosen| ==> -1 <= chosen[k] < |before|)
    && (forall j, k :: 0 <= j < k < |chosen| && chosen[j] >= 0 && chosen[k] >= 0 ==> chosen[j] < chosen[k])
    && forall k :: 0 <= k < |chosen| ==>
         if chosen[k] == -1 then after[k] == RecoverySystemMessage() else SentFor(after[k], before[chosen[k]], clean)
  }

  ghost predicate ComesFrom(before: seq<Message>, after: seq<Message>) {
    exists chosen :: Selects(before, after, chosen, AllSettled(before))
  }

  lemma NormalizedInForm(raw: seq<Message>)
    ensures AllInForm(NormalizedAll(raw, true))
  {
    forall i | 0 <= i < |raw|
      ensures var message := NormalizedAll(raw, true)[i]; OnlyTextsDiffer(Normalized(message, true), message)
    {
      NormalizedCallsIdempotent(raw[i].toolCalls);
    }
  }

  lemma SettledInForm(messages: seq<Message>)
    requires AllSettled(messages)
    ensures AllInForm(messages)
  {
  }

  lemma ComesFromItself(messages: seq<Message>)
    ensures ComesFrom(messages, messages)
  {
    hide AllSettled;
    assert Selects(messages, messages, Range(0, |messages|), AllSettled(messages));
  }

  lemma RecoveryIsSettled()
    ensures Normalized(RecoverySystemMessage(), true) == RecoverySystemMessage()
  {
    hide RecoverySystemText;
  }

  lemma NormalizedOnceMore(message: Message, source: Message, after: Message)
    requires OnlyTextsDiffer(Normalized(source, true), source) && OnlyReasoningDiffers(after, Normalized(message, true))
    ensures OnlyTextsDiffer(message, source) ==> OnlyTextsDiffer(after, source)
    ensures Settled(source) && OnlyReasoningDiffers(message, source) ==> OnlyReasoningDiffers(after, source)
  {
    hide NormalizedCalls;
  }

  /** Restoring reasoning does not change where messages come from. */
  lemma ComesFromRepaired(before: seq<Message>, messages: seq<Message>, after: seq<Message>)
    requires AllInForm(before) && ComesFrom(before, messages)
    requires AllOnlyReasoningDiffers(after, NormalizedAll(messages, true))
    ensures ComesFrom(before, after)
  {
    var clean := AllSettled(before);
    var chosen :| Selects(before, messages, chosen, clean);
    hide OnlyTextsDiffer, OnlyReasoningDiffers, Normalized, RecoverySystemMessage;
    forall k | 0 <= k < |chosen|
      ensures if chosen[k] == -1 then after[k] == RecoverySystemMessage()
        else SentFor(after[k], before[chosen[k]], clean)
    {
      assert OnlyReasoningDiffers(after[k], NormalizedAll(messages, true)[k]);
      if chosen[k] == -1 {
        SystemStays(after[k]);
      } else {
        NormalizedOnceMore(messages[k], before[chosen[k]], after[k]);
      }
    }
    assert Selects(before, after, chosen, clean);
  }

  lemma SystemStays(message: Message)
    requires OnlyReasoningDiffers(message, Normalized(RecoverySystemMessage(), true))
    ensures message == RecoverySystemMessage()
  {
    RecoveryIsSettled();
    hide RecoverySystemText, Normalized;
  }

  /** A conserving cut selects from what was selected. */
  lemma ComesFromCut(before: seq<Message>, messages: seq<Message>, cut: seq<Message>, dropped: int, kept: seq<int>)
    requires ComesFrom(before, messages) && Conserves(messages, cut, dropped, kept)
    ensures ComesFrom(before, cut)
  {
    var clean := AllSettled(before);
    var chosen :| Selects(before, messages, chosen, clean);
    var lead := |LeadingSystem(messages)|;
    var rest := seq(|kept|, k requires 0 <= k < |kept| => chosen[kept[k]]);
    hide LeadingSystem, LastUser, RecoverySystemMessage, SentFor, AllSettled;
    CutSelects(before, messages, chosen, clean, lead, kept, cut, rest);
    assert Selects(before, cut, chosen[..lead] + [-1] + rest, clean);
  }

  /** Where message `k` of a cut stood before it; the one at `lead` is the recovery message. */
  function Origin(lead: nat, kept: seq<int>, k: nat): int
    requires k <= lead + |kept|
  {
    if k <= lead then k else kept[k - lead - 1]
  }

  lemma OriginsIncrease(lead: nat, kept: seq<int>, j: nat, k: nat)
    requires Increasing(kept) && forall i :: 0 <= i < |kept| ==> lead <= kept[i]
    requires j < k <= lead + |kept| && j != lead && k != lead
    ensures Origin(lead, kept, j) < Origin(lead, kept, k)
  {
  }

  lemma CutSelects(before: seq<Message>, messages: seq<Message>, chosen: seq<int>, clean: bool, lead: nat,
                   kept: seq<int>, cut: seq<Message>, rest: seq<int>)
    requires Selects(before, messages, chosen, clean) && lead <= |messages|
    requires Increasing(kept) && forall k :: 0 <= k < |kept| ==> lead <= kept[k] < |messages|
    requires cut == messages[..lead] + [RecoverySystemMessage()] + Pick(messages, kept)
    requires rest == seq(|kept|, k requires 0 <= k < |kept| => chosen[kept[k]])
    ensures Selects(before, cut, chosen[..lead] + [-1] + rest, clean)
  {
    hide RecoverySystemMessage, SentFor, Increasing, Origin;
    var all := chosen[..lead] + [-1] + rest;
    forall k | 0 <= k < |all| && k != lead
      ensures var o := Origin(lead, kept, k); 0 <= o < |messages| && all[k] == chosen[o] && cut[k] == messages[o]
    {
      OriginOf(messages, lead, kept, cut, chosen, rest, k);
    }
    forall j, k | 0 <= j < k < |all| && all[j] >= 0 && all[k] >= 0 ensures all[j] < all[k] {
      OriginsIncrease(lead, kept, j, k);
    }
  }

  lemma OriginOf(messages: seq<Message>, lead: nat, kept: seq<int>, cut: seq<Message>, chosen: seq<int>, rest: seq<int>,
                 k: nat)
    requires lead <= |messages| == |chosen| && forall i :: 0 <= i < |kept| ==> lead <= kept[i] < |messages|
    requires cut == messages[..lead] + [RecoverySystemMessage()] + Pick(messages, kept)
    requires rest == seq(|kept|, i requires 0 <= i < |kept| => chosen[kept[i]])
    requires k <= lead + |kept| && k != lead
    ensures var o := Origin(lead, kept, k);
      0 <= o < |messages| && (chosen[..lead] + [-1] + rest)[k] == chosen[o] && cut[k] == messages[o]
  {
    hide RecoverySystemMessage;
  }
}
