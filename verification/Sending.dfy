/** What a request sends of the client's transcript, said of the messages as the client sent them. */
module Sending {
  import opened ThinkingBlocks
  import opened Transcript
  import opened Normalize
  import opened Recovery
  import opened Selection
  import opened Wording

  // ---------------------------------------------------------------- one message

  predicate IsLineBreak(c: char) {
    c == '\r' || c == '\n'
  }

  /** The text without the notice at its front, if it has one, and without the line breaks behind that. */
  ghost predicate LessNotice(text: string, rest: string) {
    if RecoveryNoticeText() <= text
    then exists breaks :: text == RecoveryNoticeText() + breaks + rest && (forall c <- breaks :: IsLineBreak(c))
           && (rest == "" || !IsLineBreak(rest[0]))
    else rest == text
  }

  /** An assistant's text without its thinking blocks and without the notice. */
  ghost predicate SpokenAs(message: Message, raw: Message) {
    && (raw.content.None? ==> message.content.None?)
    && (raw.content.Some? ==>
          message.content.Some? && message.content.value.Text?
          && exists text :: ReadsAs(raw.content.value, text)
               && LessNotice(StripThinkingBlocks(text), message.content.value.text))
  }

  /** The fields of the role, and the text; of an assistant, if stripping is stable on the transcript, less its
      thinking blocks and the notice. */
  ghost predicate SentAs(message: Message, raw: Message, clean: bool) {
    && FieldsOf(message, raw)
    && (message.role != Assistant ==> WordsOf(message, raw))
    && (message.role == Assistant && clean ==> SpokenAs(message, raw))
  }

  lemma {:induction false} BreaksSkipped(text: string) returns (breaks: string)
    ensures var rest := SkipNewlines(text);
      text == breaks + rest && (forall c <- breaks :: IsLineBreak(c)) && (rest == "" || !IsLineBreak(rest[0]))
  {
    breaks := "";
    if text != "" && IsLineBreak(text[0]) {
      var more := BreaksSkipped(text[1..]);
      breaks := [text[0]] + more;
    }
  }

  lemma WithoutNoticeIsLess(message: Message)
    requires message.role == Assistant && message.content.Some? && message.content.value.Text?
    ensures var after := WithoutNotice(message);
      after == message.(content := after.content) && after.content.Some? && after.content.value.Text?
      && LessNotice(message.content.value.text, after.content.value.text)
  {
    hide RecoveryNoticeText, SkipNewlines;
    var text := message.content.value.text;
    if RecoveryNoticeText() <= text {
      var rest := text[|RecoveryNoticeText()|..];
      var breaks := BreaksSkipped(rest);
      assert text == RecoveryNoticeText() + breaks + SkipNewlines(rest);
    }
  }

  lemma WithoutNoticeOfOthers(message: Message)
    requires message.role != Assistant || message.content.None?
    ensures WithoutNotice(message) == message
  {
  }

  lemma WithoutNoticeKeepsFields(message: Message, raw: Message)
    requires FieldsOf(message, raw)
    ensures FieldsOf(WithoutNotice(message), raw) && WithoutNotice(message).role == message.role
  {
    hide RecoveryNoticeText, SkipNewlines;
  }

  lemma TextsDifferKeepFields(message: Message, source: Message, raw: Message)
    requires OnlyTextsDiffer(message, source) && FieldsOf(source, raw)
    ensures FieldsOf(message, raw) && message.role == source.role
  {
  }

  lemma ReasoningDiffersIsTexts(message: Message, source: Message)
    requires OnlyReasoningDiffers(message, source)
    ensures OnlyTextsDiffer(message, source)
  {
  }

  /** One message on its way from the client upstream. */
  lemma OneMessageSent(raw: Message, keep: bool, message: Message, clean: bool)
    requires SentFor(message, Normalized(raw, keep), clean)
    ensures SentAs(WithoutNotice(message), raw, clean)
  {
    hide Normalized, WithoutNotice, FieldsOf, WordsOf, StrippedWordsOf, SpokenAs, OnlyTextsDiffer, OnlyReasoningDiffers;
    var source := Normalized(raw, keep);
    NormalizedFields(raw, keep);
    NormalizedWords(raw, keep);
    if clean { ReasoningDiffersIsTexts(message, source); }
    TextsDifferKeepFields(message, source, raw);
    WithoutNoticeKeepsFields(message, raw);
    if message.role != Assistant {
      WithoutNoticeOfOthers(message);
      OthersAreTheSame(message, source);
    } else if clean {
      AssistantIsSpoken(message, source, raw);
    }
  }

  lemma OthersAreTheSame(message: Message, source: Message)
    requires OnlyTextsDiffer(message, source) && message.role != Assistant
    ensures message == source
  {
  }

  lemma AssistantIsSpoken(message: Message, source: Message, raw: Message)
    requires OnlyReasoningDiffers(message, source) && message.role == Assistant && StrippedWordsOf(source, raw)
    ensures SpokenAs(WithoutNotice(message), raw)
  {
    hide ReadsAs, LessNotice, StripThinkingBlocks;
    assert message.content == source.content;
    if raw.content.Some? {
      WithoutNoticeIsLess(message);
    } else {
      WithoutNoticeOfOthers(message);
    }
  }

  // ---------------------------------------------------------------- the whole request

  /** Recovery messages, marked -1, and messages of the client's transcript in their order, each at most once. */
  ghost predicate SendsChosen(raw: seq<Message>, sent: seq<Message>, chosen: seq<int>, clean: bool) {
    && |chosen| == |sent|
    && (forall k :: 0 <= k < |chosen| ==> -1 <= chosen[k] < |raw|)
    && (forall j, k :: 0 <= j < k < |chosen| && chosen[j] >= 0 && chosen[k] >= 0 ==> chosen[j] < chosen[k])
    && forall k :: 0 <= k < |chosen| ==>
         if chosen[k] == -1 then sent[k] == RecoverySystemMessage() else SentAs(sent[k], raw[chosen[k]], clean)
  }

  ghost predicate Sends(raw: seq<Message>, sent: seq<Message>) {
    exists chosen :: SendsChosen(raw, sent, chosen, AllStripClean(raw))
  }

  lemma RecoveryHasNoNotice()
    ensures WithoutNotice(RecoverySystemMessage()) == RecoverySystemMessage()
  {
    hide RecoverySystemText;
  }

  lemma SelectionIsSent(raw: seq<Message>, active: seq<Message>)
    requires ComesFrom(NormalizedAll(raw, true), active)
    ensures Sends(raw, AllWithoutNotice(active))
  {
    hide Normalized, WithoutNotice, SentFor, SentAs, RecoverySystemMessage, AllSettled, AllStripClean;
    var before, sent := NormalizedAll(raw, true), AllWithoutNotice(active);
    var clean := AllStripClean(raw);
    if clean { NormalizedAllIsSettled(raw, true); }
    var chosen :| Selects(before, active, chosen, AllSettled(before));
    forall k | 0 <= k < |chosen|
      ensures if chosen[k] == -1 then sent[k] == RecoverySystemMessage() else SentAs(sent[k], raw[chosen[k]], clean)
    {
      if chosen[k] == -1 {
        RecoveryHasNoNotice();
      } else {
        OneMessageSent(raw[chosen[k]], true, active[k], AllSettled(before));
        if !clean { LessIsSent(sent[k], raw[chosen[k]], AllSettled(before)); }
      }
    }
    assert SendsChosen(raw, sent, chosen, clean);
  }

  lemma LessIsSent(message: Message, raw: Message, clean: bool)
    requires SentAs(message, raw, clean)
    ensures SentAs(message, raw, false)
  {
  }

  lemma NormalizedTwice(raw: Message)
    ensures OnlyTextsDiffer(Normalized(Normalized(raw, false), false), Normalized(raw, false))
    ensures StripsClean(raw) ==> OnlyReasoningDiffers(Normalized(Normalized(raw, false), false), Normalized(raw, false))
  {
    NormalizedCallsIdempotent(raw.toolCalls);
    hide StripThinkingBlocks;
  }

  /** With thinking disabled everything is sent. */
  lemma PlainIsSent(raw: seq<Message>)
    ensures Sends(raw, AllWithoutNotice(NormalizedAll(NormalizedAll(raw, false), false)))
  {
    hide Normalized, WithoutNotice, SentFor, SentAs, StripsClean;
    var sent := AllWithoutNotice(NormalizedAll(NormalizedAll(raw, false), false));
    var clean, chosen := AllStripClean(raw), Range(0, |raw|);
    forall k | 0 <= k < |raw| ensures SentAs(sent[k], raw[k], clean) {
      NormalizedTwice(raw[k]);
      SentForFrom(Normalized(Normalized(raw[k], false), false), Normalized(raw[k], false), clean);
      OneMessageSent(raw[k], false, Normalized(Normalized(raw[k], false), false), clean);
    }
    assert SendsChosen(raw, sent, chosen, clean);
  }

  lemma SentForFrom(message: Message, source: Message, clean: bool)
    requires OnlyTextsDiffer(message, source) && (clean ==> OnlyReasoningDiffers(message, source))
    ensures SentFor(message, source, clean)
  {
  }
}
