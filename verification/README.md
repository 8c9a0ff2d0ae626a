# DeepSeek Bridge: the reasoning pipeline, modelled and proved

DeepSeek refuses a request in which an assistant message of a tool turn has lost its `reasoning_content`. Clients
drop that field. The bridge caches the reasoning of every response, puts it back into the next request, cuts the
history when something cannot be restored, and shows the reasoning to the client as text. This project models that
pipeline in Dafny and proves what it is for:

- **The contract.** Whatever the cache holds, the number of missing messages the bridge reports is exactly the number
  of messages in the outgoing request that DeepSeek would refuse; in recover mode it is zero as soon as there is a
  user message (`Prepare.PrepareUpstreamRequest`). What is sent are the client's own messages with their words, the
  latest user message and the leading system messages among them (`Wording`, `Sending`), and every message that is not
  sent is counted (`Rounds`).
- **Whole conversations.** A client that echoes replies without their reasoning and appends only its own messages gets
  every turn repaired without a cut, each reply with exactly the text it came with (`Conversations`). After a first turn
  that had to recover, every later turn continues without a further cut (`StickyRecovery`). This holds of replies that
  are recorded with the notice in front and come back so: of every reply that is not streamed, and of streamed replies
  under an exact condition on their lines (`StreamedConversations.StreamedTurnContinues`).
- **The cache.** Two histories share a scope, or a turn, exactly if their messages agree (`Agreement`), and a message is
  found exactly by what it shares with what was stored (`KeyFacts`). Restored text was recorded in the same namespace and
  the same turn, over every run with evictions (`Provenance`); the bounded SQLite store is a function of its write
  history, and keeps what a reply, a backfill or a stream writes (`BoundedStore`); the Valkey index agrees with the
  values (`Valkey`).
- **Streams.** Deltas merge in order however they are split, every choice ends up stored under every recording scope
  however the stream breaks off, the display mirrors what folding the whole message shows, a pending notice is shown
  exactly once, and a reply that is streamed well continues a conversation as a whole reply does (`Deltas`,
  `Resplitting`, `Staging`, `Accumulator`, `Display`, `Notice`, `SseStream`, `Sse`, `StreamRoundTrip`,
  `StreamedConversations`).

## How it is modelled

Messages are values with a role, content, tool calls and optional reasoning (`Transcript`). A SHA-256 digest over
canonical JSON is the value it is taken of: a scope is the namespace and every message so far without reasoning, and
distinct values have distinct keys (`Keys`). Strings are sequences of characters. The pattern that removes thinking
blocks is a scanner with the same alternatives in the same order (`ThinkingBlocks`), which matches exactly where the
pattern does (`ThinkingPattern`).

The stores, the notice tracker, the accumulator and the display adapter are classes that update their fields. Their
methods are proved against functions on values: `Repair`, `CutBack`, `Drain` and `Opening` for a request, `Stored`,
`Lookup` and `Backfilled` for the cache, `Absorbed` and `Queued` for a stream, `Rewritten` for the display. The theorems
are about those functions. `method` names follow the functions of the source.

A store that has a row limit may lose rows with every write. For every store, a contract therefore says which entries
are written in which order, each write pruning what the ones before it left (`Wrote`), and in which order a transcript is
repaired from what the store holds by then (`Repairs`, `InRounds`). For a store that forgets nothing (`Unlimited`,
`Steady`) the resulting cache is given as well. What the request needs for DeepSeek's rule holds for every store.

`hide` statements at the head of a body keep definitions that a proof does not need away from the solver.

## What the proofs showed about the code

- `strip_cursor_thinking_blocks` is not idempotent: `<thi<think></think>nk>` becomes `<think>`, which becomes nothing
  (`ThinkingBlocks.StripIsNotIdempotent`). It is stable exactly on the texts in which no opening bracket that the scan
  keeps joins with what it keeps behind it into a block (`ThinkingBlocks.StableWhenNothingJoins`). The theorems about
  several normalisations take stability as a hypothesis (`AllStripClean`).
- If a request continues from an earlier notice and must then still fall back to the latest user message, the recovery
  system message is sent twice, because the first copy counts as a leading system message: exactly when the transcript
  of a recovering turn has a notice already (`StickyRecovery.AnchorIsRecorded`, `Witnesses.DoubledRecoveryExists`).
  Nothing is then recorded under the scope that the boundary forms of later requests have, so that in those forms only
  a key of its turn finds the reply (`StickyRecovery.OnlyItsTurnFindsIt`).
- A comment in `transform/_recovery.py` says that a notice is shown once per conversation. The code keeps the scopes of
  whole transcripts, and a later turn has a longer one: if the cache has lost a reply, the notice is shown again
  (`Witnesses.NoticeShownTwice`). A turn shows it exactly when gaps remain, there is a user message and its own
  transcript is new (`StickyRecovery.NoticeExactly`, `StickyRecovery.LaterTurnsAreNotRemembered`). What keeps later turns
  quiet is that they need no further cut (`StickyRecovery.RecoverySticks`).
- `ReasoningStore.put` prunes by age only if a row limit is set, and `get` never looks at the age: a row past its age
  survives the write of another key if and only if there is no row limit (`ReasoningCache.ExpiredRowOutlivesWrites`),
  and is read (`ReasoningCache.ExpiredRowIsRead`).
- Lines that take the byte-level shortcut of `_rewrite_sse_line` are shown but not accumulated, and take no notice. A
  reply is recorded whole and behind the notice if and only if its choice takes the notice and no line on the shortcut
  carried text for it (`StreamRoundTrip.RecordedMessageIsWhole`). A lone content chunk that mentions neither field is
  lost to the recorder (`StreamRoundTrip.ShortcutCanLoseText`); with a notice pending it is shown in front of the notice,
  which the next request then does not find (`StreamRoundTrip.ShortcutCanLoseTheNotice`).
- A notice that goes into a part with reasoning and null content closes the block, and later reasoning opens a second
  one between the notice and the content. Stripping that block takes leading whitespace of the content with it, and the
  reply comes back under another key: exactly then (`StreamRoundTrip.StreamedReplyEchoesBack`,
  `StreamRoundTrip.NoticeCanCostSpace`).

## Model

| member | source | states |
|---|---|---|
| ThinkingBlocks.EscapeIsCharacterwise | src/deepseek_bridge/streaming/_sse.py:46-51 | Five replacements over the whole text, one after the other, are one map from characters to entities: no later replacement touches an earlier entity; the result has no opening bracket and is never shorter |
| ThinkingBlocks.StripFold | src/deepseek_bridge/_normalization.py:49-60 | For every reasoning text, content and block style, stripping a folded message is stripping its content less leading whitespace |
| ThinkingBlocks.NoBlockMeansNoMatch | src/deepseek_bridge/_normalization.py:49-60 | Stripping leaves a text alone if and only if the pattern matches at no position of it |
| ThinkingBlocks.DisplayRoundTrip | src/deepseek_bridge/_normalization.py:96-97 | Printer and parser: folding reasoning into a content without blocks and stripping it gives the content back, less leading whitespace, for both styles |
| ThinkingBlocks.StableWhenNoBlockIsLeft | src/deepseek_bridge/_normalization.py:96-97 | Stripping twice equals stripping once exactly when the first result contains no block |
| ThinkingBlocks.StableWhenNothingJoins | src/deepseek_bridge/_normalization.py:96-97 | The same as a condition on the text: stripping is stable if and only if no opening bracket that the scan keeps joins with what it keeps behind it into a block |
| ThinkingBlocks.StableWhenBlocksComeFirst | src/deepseek_bridge/_normalization.py:96-97 | Stripping is stable on every text whose blocks all come before any other opening bracket |
| ThinkingBlocks.FoldedTextIsStable | src/deepseek_bridge/streaming/_sse.py:46-51 | Stripping is stable on whatever the bridge folds around a content without blocks |
| ThinkingBlocks.StripAroundText | src/deepseek_bridge/_normalization.py:49-60 | A text with reasoning folded in before it, behind it or both strips to the text and the content, whose leading whitespace goes exactly if a block stands in front of it |
| ThinkingBlocks.StripIsNotIdempotent | src/deepseek_bridge/_normalization.py:96-97 | A text whose stripping leaves a new block behind |
| ThinkingPattern.ThinkExactly | src/deepseek_bridge/_normalization.py:51-52 | The scanner finds the first kind of block exactly where the pattern has one: a tag name in any case at a word boundary, its first closing bracket, and the earliest closing tag of either name or the end of the text |
| ThinkingPattern.DetailsExactly | src/deepseek_bridge/_normalization.py:54-56 | The same for the second kind: the two tags, the heading between them with any white space around it, and the earliest closing tag or the end of the text |
| ThinkingPattern.BlockExactly | src/deepseek_bridge/_normalization.py:49-60 | The scanner finds a block exactly where the pattern matches, and goes on behind the white space after it |
| ThinkingPattern.UnescapeEscaped | src/deepseek_bridge/streaming/_sse.py:46-51 | Escaped reasoning can be read back: unescaping undoes escaping on every text |
| Transcript.ViolationsAreExact | tests/test_protocol.py:227-237 | The list of violations holds exactly the indices DeepSeek's tool-turn rule refuses, in increasing order |
| Transcript.ViolationsOfSameShape | tests/test_protocol.py:227-237 | The rule sees only roles, tool calls and reasoning: texts do not matter |
| Transcript.AssistantNeedsReasoning | src/deepseek_bridge/transform/_cache.py:130-142 | The backward loop answers true exactly when the message calls tools or a tool message comes before it with no user or system message in between |
| Keys.TurnContextSignature | src/deepseek_bridge/reasoning_store.py:93-116 | The loop finds the start of the last run of user messages, and the signature is the non-system messages from there |
| Keys.KeyListsAgree | src/deepseek_bridge/transform/_cache.py:18-127 | The lookup list and the separately written storage lists are the same keys in the same order, and `portable` marks exactly the keys that name no scope |
| Keys.ScopeDeterminesTurn | src/deepseek_bridge/reasoning_store.py:83-116 | Histories with equal scopes have equal turns |
| Agreement.ScopesAgreeExactly | src/deepseek_bridge/reasoning_store.py:69-90 | Two histories have the same scope if and only if the namespaces are equal and the messages agree one by one in role, content, name, tool call id, prefix and normalised calls |
| Agreement.TurnsAgreeExactly | src/deepseek_bridge/reasoning_store.py:93-116 | Two histories have the same turn if and only if their messages that are not system messages agree one by one, from the start of the last run of user messages on, or from the start where there is none |
| KeyFacts.SelectorsExactly | src/deepseek_bridge/reasoning_store.py:28-66 | What a message is filed under: its content and calls together, and the id, the form without id and the tool name of each call; nothing else |
| KeyFacts.SelectorsGetLooser | src/deepseek_bridge/reasoning_store.py:119-173 | In the order in which keys are tried, what names more of the message comes first: its signature, then ids, then forms, then names |
| KeyFacts.FoundExactly | src/deepseek_bridge/transform/_cache.py:18-127 | A message is found if and only if one of its selectors is in the cache under the scope of its history, or, in a named namespace, under its turn |
| KeyFacts.SharedSelectorFinds | src/deepseek_bridge/reasoning_store.py:119-173 | What was stored for a reply is found by every message that shares a selector with it, behind every history that agrees with the answered one and, in a named namespace, in every turn that agrees with its turn |
| Keys.TurnIgnoresEarlierHistory | src/deepseek_bridge/reasoning_store.py:93-116 | The turn does not depend on anything before the last run of user messages |
| ReasoningCache.SelectNewest | src/deepseek_bridge/reasoning_store.py:706-719 | The kept rows are unchanged rows, as many as the limit allows, and no dropped row is newer than a kept one |
| ReasoningCache.ReasoningStore.Put | src/deepseek_bridge/reasoning_store.py:580-603 | The row is written with its time; under a row limit the clock is read again and the table pruned as of then, and without one the write changes nothing else; a closed store is untouched; nothing but the new row can appear |
| ReasoningCache.ExpiredRowOutlivesWrites | src/deepseek_bridge/reasoning_store.py:580-603 | A row past its age survives the write of another key if and only if the store has no row limit |
| ReasoningCache.ExpiredRowIsRead | src/deepseek_bridge/reasoning_store.py:619-650 | A row that is read although it is past its age: written at second 0 for 60 seconds, and still read after a write at second 1000 |
| ReasoningCache.ReasoningStore.Get | src/deepseek_bridge/reasoning_store.py:619-650 | Returns what the open table holds, whatever its age |
| ReasoningCache.ReasoningStore.PruneAt | src/deepseek_bridge/reasoning_store.py:696-724 | First the expired rows go, then all but the newest; the count is the number of rows gone |
| ReasoningCache.ReasoningStore.Clear | src/deepseek_bridge/reasoning_store.py:652-662 | Empties the table and counts what was in it |
| ReasoningCache.ReasoningStore.Close | src/deepseek_bridge/reasoning_store.py:521-522 | A closed store shows nothing |
| ReasoningCache.ReasoningStore.StoreAssistantMessage | src/deepseek_bridge/reasoning_store.py:248-271 | For every store, limited or not: one write for each distinct key of the family of an assistant message with reasoning, in order and with its text, each pruning what the ones before it left, and no other write; the count is the number of those keys; other messages write nothing |
| ReasoningCache.SomethingIsStored | src/deepseek_bridge/reasoning_store.py:248-271 | Storing a message writes at least one key exactly if it is an assistant message with reasoning |
| ReasoningCache.ReasoningStore.LookupForMessage | src/deepseek_bridge/reasoning_store.py:273-291 | Returns the text under the first key of the family that is in the store |
| ReasoningCache.ReasoningStore.PutEach | src/deepseek_bridge/reasoning_store.py:266-271 | The keys are written in order, each by one write that prunes what the ones before it left; a closed store is untouched |
| ReasoningCache.ReasoningStore.BackfillPortableAliases | src/deepseek_bridge/reasoning_store.py:293-309 | For every store: one write of the text for each distinct portable key, in order, and no other; without a namespace there are none |
| ReasoningCache.AliasesReachTheWholeTurn | src/deepseek_bridge/reasoning_store.py:293-309 | After a backfill the message is found under every history of the same turn: with the same text, unless a key of that history's own scope hits first |
| BoundedStore.NewestRowsDetermined | src/deepseek_bridge/reasoning_store.py:706-719 | With distinct times a row is kept if and only if fewer rows than the limit are newer |
| BoundedStore.SurvivorsSuffice | src/deepseek_bridge/reasoning_store.py:696-724 | Whether a key survives is the same seen from the survivors of the last write as from all keys ever written |
| BoundedStore.WriteKeepsMostRecent | src/deepseek_bridge/reasoning_store.py:580-603 | One write, pruned against what earlier prunes left, keeps the store equal to its specification |
| BoundedStore.BoundedStoreRefinesHistory | src/deepseek_bridge/reasoning_store.py:696-724 | After any run of writes with an increasing clock the store holds precisely the most recently written distinct keys not older than the age limit, each with its last value |
| BoundedStore.RowSurvives | src/deepseek_bridge/reasoning_store.py:580-603 | Under a row limit, a row outlives any batch of writes of other keys unless it expires or as many rows and keys as the limit allows are as new |
| BoundedStore.WrittenIsKept | src/deepseek_bridge/reasoning_store.py:580-603 | The last write of a key in a batch is in the table afterwards, unless it expires or the batch has more keys than the limit allows |
| BoundedStore.BatchKeepsMostRecent | src/deepseek_bridge/reasoning_store.py:696-724 | Exactly: a table that holds the most recent of all keys holds the most recent of all keys after any batch |
| BoundedStore.ReplyIsKept | src/deepseek_bridge/reasoning_store.py:248-271 | A recorded reply is found in a store with a row limit: every key of its family is there with its text, unless they are more than the limit or expire while they are written |
| Normalize.RestoreReasoning | src/deepseek_bridge/transform/_normalize.py:78-104 | The loop returns what the first hit of the key family holds; if a scoped key hit, the portable keys are written, one by one for every store, and nothing otherwise. Without limits and with a namespace the text then reaches the whole turn: in every history whose turn agrees, the message is found, and so is every message that shares a selector; with this text, unless its own scope has one |
| Normalize.NormalizeMessage | src/deepseek_bridge/transform/_normalize.py:26-152 | For every store: the words and fields of the client's message are kept (of an assistant less its thinking blocks), its own reasoning stays, and missing reasoning is what the store holds by then; `missing` is true exactly when the message still breaks the rule, `patched` exactly when it has reasoning that the client did not send |
| Normalize.NormalizeMessages | src/deepseek_bridge/transform/_normalize.py:155-201 | For every store: the missing indexes are exactly the violations of the result, every message carries the client's words, only reasoning was changed, and each message was repaired from what the store held after the messages before it; for a store that forgets nothing, result and cache are those of the repair function |
| Normalize.RepairIsInvisibleToScopes | src/deepseek_bridge/transform/_normalize.py:155-201 | For every cache, each prefix of the repaired transcript has the scope of the unrepaired one |
| Normalize.RestoringReachesTurn | src/deepseek_bridge/transform/_normalize.py:88-104 | After a hit under the scope itself, every history whose turn agrees finds the message and whatever shares a selector with it |
| Normalize.PatchCountExactly | src/deepseek_bridge/transform/_normalize.py:177-184 | The count of patched messages is the number of assistant messages that have reasoning and came without any |
| Wording.PartsReadAsJoined | src/deepseek_bridge/_normalization.py:72-93 | A list content reads as its non-empty texts in order, with one line break between each two |
| Wording.NormalizedCarries | src/deepseek_bridge/transform/_normalize.py:33-60 | Each role keeps its fields and its text; a missing role is a user, a function is a tool, calls get a kind and textual arguments, and an assistant loses its thinking blocks |
| RepairFacts.RepairAt | src/deepseek_bridge/transform/_normalize.py:168-177 | Each message is repaired against the repaired messages before it, independently of what follows |
| RepairFacts.RepairKeepsScopedKeys | src/deepseek_bridge/transform/_normalize.py:88-104 | Repairing a transcript writes portable keys only and forgets none |
| RepairFacts.RepairReachesTurn | src/deepseek_bridge/transform/_normalize.py:88-104 | Repairing a transcript that reaches a message found under its own scope makes it found in every history of an agreeing turn, also after the rest has been repaired |
| RepairFacts.OwnReasoningStays | src/deepseek_bridge/transform/_normalize.py:69-73 | Reasoning that the client sent is never replaced |
| RepairFacts.RicherCacheRepairsMore | src/deepseek_bridge/transform/_normalize.py:155-201 | What repairs without a gap from one cache does so from every cache with at least its keys, although repairing changes the cache as it goes |
| RepairFacts.CompleteExtends | src/deepseek_bridge/transform/_normalize.py:155-201 | A gapless transcript stays gapless when a reply that can be found and further non-assistant messages are appended |
| Recovery.LeadingSystemMessages | src/deepseek_bridge/transform/_recovery.py:67-76 | The loop returns the longest prefix of system messages |
| Recovery.ActiveMessagesFromRecoveryBoundary | src/deepseek_bridge/transform/_recovery.py:79-122 | Cuts at the last notice, keeping leading system messages and the nearest user message before it; never counts below zero |
| Recovery.RecoverMessagesFromMissingReasoning | src/deepseek_bridge/transform/_recovery.py:125-227 | With a notice that has something missing before it, everything from the last such notice on behind the leading system messages, the recovery message and the nearest user message; else the latest user message behind those, with a notice to show; else nothing is cut |
| Recovery.StripRecoveryNoticeForUpstream | src/deepseek_bridge/transform/_recovery.py:47-64 | Every assistant message loses its notice and the line breaks after it; all others are sent as they are |
| Recovery.BoundaryConserves | src/deepseek_bridge/transform/_recovery.py:93-121 | Leading system messages and the latest user message survive, kept messages keep their order, only the recovery message is invented, and the length is old plus one minus retired |
| Recovery.CutConserves | src/deepseek_bridge/transform/_recovery.py:138-227 | The same conservation for every dropping pass of either kind; a pass that gives up changes nothing |
| Recovery.CutMakesProgress | src/deepseek_bridge/transform/_prepare.py:268-274 | A pass drops nothing exactly when there is no user message to fall back to; otherwise it strictly reduces the number of assistant messages |
| Rounds.RoundsConserve | src/deepseek_bridge/transform/_prepare.py:225-295 | Over a whole preparation, for every store: messages sent, plus those counted as dropped and retired, are the messages of the request and one recovery message for each round after the first |
| Rounds.CutIsARound | src/deepseek_bridge/transform/_prepare.py:268-295 | A pass of the loop is one more round: the counts of recovered and dropped messages, the steps and whether there was a fall back add up |
| Sending.WithoutNoticeIsLess | src/deepseek_bridge/transform/_recovery.py:47-64 | An assistant that speaks a notice is sent without it and without the line breaks behind it, and with nothing else changed |
| Sending.SelectionIsSent | src/deepseek_bridge/transform/_prepare.py:206-320 | What goes upstream of a selection is recovery messages and the client's own messages in order, each at most once with its fields, the texts of other roles as they are and, if stripping is stable on them, those of assistants less thinking blocks and notice |
| Sending.PlainIsSent | src/deepseek_bridge/transform/_prepare.py:206-233 | With thinking disabled, everything is sent in that way |
| Prepare.NoticeTracker.ShouldShow | src/deepseek_bridge/transform/_recovery.py:28-35 | True the first time a scope is seen; the memory grows by that scope, after being emptied when over 10000 |
| Prepare.SeenAfterRemembers | src/deepseek_bridge/transform/_recovery.py:28-35 | A scope that was shown is remembered, nothing else is added, and nothing is forgotten up to 10000 scopes |
| Prepare.ResponseRecordingContexts | src/deepseek_bridge/transform/_cache.py:187-200 | The first context of each scope, in order |
| Prepare.OpeningOffersNoBoundary | src/deepseek_bridge/transform/_prepare.py:240-263 | After the boundary step no notice has anything missing before it, so the loop will not cut at a boundary |
| Prepare.CutAndRepair | src/deepseek_bridge/transform/_prepare.py:268-295 | One pass of the loop keeps the ends and the exact missing list, for every store, and leaves nothing missing after falling back to the latest user message |
| Prepare.RepairOrContinue | src/deepseek_bridge/transform/_prepare.py:225-263 | The loop starts from the repaired transcript, or from its form after the last notice if gaps remain |
| Prepare.RecoverUntilComplete | src/deepseek_bridge/transform/_prepare.py:268-295 | The loop terminates; afterwards nothing is missing unless there was no user message; at most one pass if no boundary was on offer |
| Prepare.RepairAndRecover | src/deepseek_bridge/transform/_prepare.py:225-300 | For every store: the rounds of repair and cutting lead from the table at the start to the one at the end, go on as long as something is missing and can be cut, and stop then; the counts, the steps and the notice are those of the rounds, and the notice is shown exactly if some round fell back and the scope is new |
| Prepare.PrepareUpstreamRequest | src/deepseek_bridge/transform/_prepare.py:206-320 | For every store: the reported number is the number of violations sent, zero in recover mode when a user message exists; what is sent is recovery messages and the client's own messages with their words, in order and at most once, the leading system messages and the latest user message among them; the rounds of repair, the counts, the steps and the notice are those of `RepairAndRecover`; clean contents need at most one cut, to the latest user message. A store that forgets nothing determines everything. With thinking disabled everything is sent and nothing restored |
| Selection.ComesFromCut | src/deepseek_bridge/transform/_recovery.py:93-227 | Whatever was selected from a transcript in order stays selected in order after any further cut |
| Selection.ComesFromRepaired | src/deepseek_bridge/transform/_normalize.py:155-201 | Repairing restores reasoning and moves nothing: what was selected from a transcript still is, equal up to the reasoning of assistants if stripping is stable on it, and up to their texts otherwise |
| Response.PrefixResponseContent | src/deepseek_bridge/transform/_response.py:87-104 | The prefix goes in front of the content of the first choice with a message; every other choice, and all else of this one, stays; the answer says whether there was one |
| Response.FoldReasoningIntoContent | src/deepseek_bridge/streaming/_sse.py:21-51 | Every choice with non-empty reasoning shows the block of its escaped reasoning in front of its content, the others are unchanged |
| Response.RecordResponseReasoning | src/deepseek_bridge/transform/_response.py:10-47 | For every store: each message is written under every recording context, in order and key by key, and nothing else is; the count sums the distinct keys of each message and context |
| Response.RewriteResponse | src/deepseek_bridge/transform/_response.py:50-84 | For every store: the reply is recorded with the notice the client will echo, in order and key by key, and before its reasoning is folded into it |
| Response.EchoRestoresSignature | src/deepseek_bridge/transform/_normalize.py:45-60 | What the client sends back, normalised, has the signature the reply was recorded under |
| Conversations.RecordingHolds | src/deepseek_bridge/transform/_prepare.py:296-300 | After recording, the reply can be found under the scope of the plain and of the sent transcript and under the turn of the sent one, and nothing is forgotten |
| Conversations.CompleteTurnIsUntroubled | src/deepseek_bridge/transform/_prepare.py:225-295 | If the transcript or its form after the last notice can be repaired without a gap, the turn cuts nothing and shows no notice |
| Conversations.EveryTurnIsRepaired | src/deepseek_bridge/transform/_prepare.py:206-301 | In a conversation that starts without assistant messages, every turn however late is repaired without a gap, a cut or a notice, whatever other requests do to the cache short of forgetting; what the client sends back need only read like the echo of what was recorded |
| Conversations.RepliesAreRepairedExactly | src/deepseek_bridge/transform/_response.py:35-47 | Every reply of a tool turn goes back upstream with exactly the reasoning it came with, if nobody rewrote its signature key |
| StickyRecovery.AnchorIsRecorded | src/deepseek_bridge/transform/_recovery.py:207-215 | The recovering turn sends the leading system messages, the recovery message, and the latest user message; the recovery message twice if and only if its transcript had a notice already. What was sent has the turn that later boundary forms start with, and their scope if and only if there was no notice before |
| StickyRecovery.OnlyItsTurnFindsIt | src/deepseek_bridge/transform/_recovery.py:111-120 | With the recovery message sent twice, recording the reply writes nothing under the scope that later boundary forms look it up with |
| StickyRecovery.NoticeExactly | src/deepseek_bridge/transform/_prepare.py:281-282 | A turn carries the notice if and only if gaps remain after the boundary step, there is a user message, and the notice was not shown for this transcript before |
| StickyRecovery.LaterTurnsAreNotRemembered | src/deepseek_bridge/transform/_recovery.py:28-35 | As long as only shorter transcripts are remembered, such as the earlier turns of a conversation, the memory keeps no notice back |
| StickyRecovery.SameTranscriptShowsOnce | src/deepseek_bridge/transform/_recovery.py:28-35 | The same transcript sent again, with whatever cache, does not carry the notice a second time |
| StickyRecovery.EveryLaterTurnContinues | src/deepseek_bridge/transform/_recovery.py:79-122 | In every later turn the notice of the recovered reply is the last notice, and the plain transcript or its boundary form repairs without a gap |
| StickyRecovery.RecoverySticks | src/deepseek_bridge/transform/_prepare.py:240-300 | Once a turn recovered and its reply carries the notice, every later turn has nothing missing, cuts nothing and shows no notice |
| Witnesses.PlainConversationExists | src/deepseek_bridge/transform/_prepare.py:206-301 | The hypotheses of the theorems on conversations that start plainly can be met, with a reply in the conversation |
| Witnesses.RecoveredConversationExists | src/deepseek_bridge/transform/_prepare.py:268-295 | The hypotheses of sticky recovery can be met: from an empty cache, a lost tool call makes the first turn recover, and a turn follows it |
| Witnesses.DoubledRecoveryExists | src/deepseek_bridge/transform/_recovery.py:67-76 | A request whose turn continues from a notice, falls back all the same, and sends the recovery message twice |
| Witnesses.NoticeShownTwice | src/deepseek_bridge/transform/_recovery.py:28-35 | A conversation that shows the notice in two turns, the memory being what the first turn left and the cache having lost the first reply |
| Witnesses.StreamedRecoveryExists | src/deepseek_bridge/asgi.py:1084-1148 | The hypotheses of sticky recovery for streams can be met: a recovering turn whose streamed reply takes the notice |
| Provenance.RunIsSourced | src/deepseek_bridge/reasoning_store.py:248-309 | In every run of recordings, lookups with backfills and evictions, every cached text stems from a recorded response of the same scope and selector, or of the same namespace and turn |
| Provenance.RestoredReasoningHasASource | src/deepseek_bridge/reasoning_store.py:83-170 | Whatever a lookup returns was recorded, with that text, in the same namespace after a history whose turn has the same messages; if a scoped key hit, after a history with the same messages, from a reply that shares the selector |
| Provenance.CallersAreIsolated | src/deepseek_bridge/transform/_cache.py:164-184 | A caller never gets reasoning if nobody with the same authorization recorded any |
| Provenance.PatchHasASource | src/deepseek_bridge/transform/_normalize.py:88-104 | Every reasoning text that a repair adds was recorded, with that text, in the namespace of the request after a history whose turn has the same messages as the one it is added in |
| Lines.LinesOfAreLines | src/deepseek_bridge/async_upstream.py:69-82 | The lines concatenate to the bytes, none is empty, and each but possibly the last ends in its only newline |
| Lines.LinesAreUnique | src/deepseek_bridge/async_upstream.py:69-82 | There is only one way to divide bytes into such lines |
| Lines.IterResponseLines | src/deepseek_bridge/async_upstream.py:69-82 | The yielded lines are those of the concatenated chunks, so any two chunkings of the same bytes give the same lines |
| Valkey.ValkeyReasoningStore.DeleteKeys | src/deepseek_bridge/valkey_store.py:128-139 | Batches of at most 500 cover the names exactly once in order, repeated names included; the count is the number of names that existed |
| Valkey.ValkeyReasoningStore.RemoveIndexEntries | src/deepseek_bridge/valkey_store.py:141-146 | Batches of at most 500 cover the keys exactly once, and exactly their index entries go |
| Valkey.ValkeyReasoningStore.PruneIndexByAge | src/deepseek_bridge/valkey_store.py:148-153 | Exactly the entries past their age leave the index, and agreement is kept |
| Valkey.ValkeyReasoningStore.PruneIndexByRows | src/deepseek_bridge/valkey_store.py:155-171 | The index shrinks to the limit by its oldest entries, their values go with them, and agreement is kept |
| Valkey.NextBatch | src/deepseek_bridge/valkey_store.py:132-138 | A batch removes and counts only what earlier batches did not |
| Valkey.ValkeyReasoningStore.Put | src/deepseek_bridge/valkey_store.py:173-200 | Agreement is kept; under a row limit at most that many values live; without one the write is visible and nothing else changes |
| Valkey.ValkeyReasoningStore.Get | src/deepseek_bridge/valkey_store.py:218-268 | Returns the living record; a value that does not decode is removed; nothing else that can be read changes, and agreement is kept |
| Valkey.ValkeyReasoningStore.Clear | src/deepseek_bridge/valkey_store.py:276-291 | Leaves no living value and no index, and counts exactly the values that lived, whether or not the scan met the index |
| Valkey.ValkeyReasoningStore.Prune | src/deepseek_bridge/valkey_store.py:308-314 | Counts the index entries gone, respects the row limit and keeps agreement |
| Valkey.ValkeyReasoningStore.AgreesLater | src/deepseek_bridge/valkey_store.py:191-198 | Agreement is not lost while time passes and values expire |
| Deltas.TextIsAPrefix | src/deepseek_bridge/streaming/_accumulator.py:68-96 | Accumulated content and reasoning are prefixes of what was sent, and all of it while below the limit |
| Deltas.AtMostMaxToolCalls | src/deepseek_bridge/streaming/_accumulator.py:214-220 | At most 100 tool calls exist, and none is lost |
| Deltas.MergedExactly | src/deepseek_bridge/streaming/_accumulator.py:202-255 | A delta goes to the call of its index, with empty calls up to it; without an index or with a negative one to a new call; beyond a hundred nowhere. It replaces what it names, its arguments are added, and no other call changes |
| Deltas.ArgumentsAreInOrder | src/deepseek_bridge/streaming/_accumulator.py:249-255 | The arguments of each call are what it had, followed by the fragments applied to its index in order of arrival |
| Deltas.ChoicesDoNotMix | src/deepseek_bridge/streaming/_accumulator.py:51-66 | In any interleaving, a choice accumulates its own parts and nothing else |
| Resplitting.AccumulatesTheWhole | src/deepseek_bridge/streaming/_accumulator.py:56-109 | Below the limits the choice is what all its deltas say together: concatenated texts, whether reasoning came, the last role and finish, and the concatenated call deltas merged |
| Resplitting.CallsAreDetermined | src/deepseek_bridge/streaming/_accumulator.py:202-255 | Each call is the last id, kind and name given to its index, and all fragments given to it in order, however the calls are interleaved |
| Resplitting.SameCalls | src/deepseek_bridge/streaming/_accumulator.py:202-255 | Two lists of call deltas merge into the same calls if and only if they name as many calls and say the same about each |
| Resplitting.ResplittingKeepsTheMessage | src/deepseek_bridge/streaming/_accumulator.py:46-109 | Below the limits, two streams of a choice that say the same together give the same message, however texts and fragments are split and interleaved |
| Resplitting.SplitFragmentAnywhere | src/deepseek_bridge/streaming/_accumulator.py:249-255 | An indexed fragment may be split anywhere in the list, its second piece moving behind deltas for other indexes, without changing the calls |
| Staging.QueuedStages | src/deepseek_bridge/streaming/_accumulator.py:257-285 | Queueing raises each choice of the scope to the wanted stage, never lowers one, leaves other scopes alone, and counts zero only if nothing changed |
| Staging.StageRises | src/deepseek_bridge/streaming/_accumulator.py:257-285 | A queueing that raises the stage keeps the bound: no choice is queued for a scope more than twice, nor at a stage that does not rise |
| Staging.QueuedStaysInOrder | src/deepseek_bridge/streaming/_accumulator.py:277-284 | Each key is pending once, with the message filed last; whatever was pending or stored still is |
| Staging.FlushedIsKept | src/deepseek_bridge/streaming/_accumulator.py:187-195 | Flushing puts every message ever filed into the cache under all keys of its scope |
| Staging.RaiseNext | src/deepseek_bridge/streaming/_accumulator.py:152-185 | If queueing under one context finds nothing to raise, no other context has anything to raise, so the shared flag falls only when nothing is left under any |
| Staging.FlushingIsRecording | src/deepseek_bridge/streaming/_accumulator.py:187-195 | Queueing a message under fresh contexts and flushing is recording the whole message |
| Accumulator.StreamAccumulator.MergeToolCallDeltas | src/deepseek_bridge/streaming/_accumulator.py:202-255 | The loop with its padding computes the merged calls |
| Accumulator.StreamAccumulator.Absorb | src/deepseek_bridge/streaming/_accumulator.py:56-109 | One part of a choice is merged, and storeable data is reported exactly when reasoning or tool calls came |
| Accumulator.StreamAccumulator.IngestChunk | src/deepseek_bridge/streaming/_accumulator.py:46-109 | All parts are merged in order, the flag rises exactly when something storeable came, and choices that were already final become late |
| Accumulator.StreamAccumulator.QueueChoice | src/deepseek_bridge/streaming/_accumulator.py:257-285 | A choice is queued at most once per call, at the wanted stage and only if that raises it; the log of queueings grows by exactly that entry |
| Accumulator.StreamAccumulator.StoreReasoning | src/deepseek_bridge/streaming/_accumulator.py:111-129 | Every choice becomes final under the scope and other scopes keep their stages |
| Accumulator.StreamAccumulator.StoreFinishedReasoning | src/deepseek_bridge/streaming/_accumulator.py:131-150 | The finished choices become final under the scope, all others keep their stage, and the answer counts the queueings |
| Accumulator.StreamAccumulator.StoreReadyReasoning | src/deepseek_bridge/streaming/_accumulator.py:152-185 | Nothing happens without new data; otherwise finished choices become final, identified tool calls are stored early, and the flag stays up exactly if something was queued |
| Accumulator.StreamAccumulator.WritePending | src/deepseek_bridge/streaming/_accumulator.py:187-195 | For every store, limited or not: the writes are those of the pending messages, in order and key by key |
| Accumulator.StreamAccumulator.FlushPendingStore | src/deepseek_bridge/streaming/_accumulator.py:187-195 | For every store: everything pending is written in order and key by key, nothing stays pending, and the flag falls exactly if something was written; without limits everything filed is now in the cache |
| Accumulator.StreamAccumulator.TakeChunk | src/deepseek_bridge/asgi.py:1148-1153 | A chunk leaves all contexts at the same stages, no stage lower than before, nothing pending, and makes late only finished choices it has more for. Once something storeable has come, finished choices are final and choices with reasoning and all their call ids stored early, and nothing else rises; whatever rose was filed as it is now, and is in the cache of a store without limits |
| Accumulator.StreamAccumulator.Finish | src/deepseek_bridge/asgi.py:841-850 | Every choice is final under every context with nothing pending; unless more came for it after it was final its message has been written, whatever the store, and is in the cache without limits; a single unfinished choice is recorded like a whole message |
| Display.CursorReasoningDisplayAdapter.RewritePart | src/deepseek_bridge/streaming/_display.py:38-78 | The part shows opening marker, escaped reasoning, closing marker and content where due, the open set follows, and nothing but the content changes |
| Display.CursorReasoningDisplayAdapter.RewriteChunk | src/deepseek_bridge/streaming/_display.py:32-78 | The parts are rewritten in order, each from the state the one before left |
| Display.CursorReasoningDisplayAdapter.FlushChunk | src/deepseek_bridge/streaming/_display.py:80-108 | One closing marker for each open choice, in order of index, and no chunk if none is open |
| Display.BlockIsOpenExactly | src/deepseek_bridge/streaming/_display.py:47-78 | A block is open exactly if reasoning came and no content, tool calls or finish with it or since |
| Display.MarkersAlternateAndClose | src/deepseek_bridge/streaming/_display.py:47-92 | For every stream the markers of a choice alternate, reasoning stays inside and content outside, and all are closed after the flush |
| Display.StreamedEqualsFolded | src/deepseek_bridge/streaming/_sse.py:21-51 | If no reasoning comes after content, tool calls or the finish, the streamed text is the folded whole message |
| Display.StreamTextIsOwn | src/deepseek_bridge/streaming/_display.py:38-78 | In any interleaving, what is shown for a choice depends on its own parts alone |
| Notice.InjectRecoveryNotice | src/deepseek_bridge/streaming/_sse.py:61-78 | The first part with a content field or tool calls gets the notice in front of its content; every other part, and all else of this one, stays; the answer says whether there was one |
| Notice.InjectedParts | src/deepseek_bridge/streaming/_sse.py:61-78 | One part of the carrying choice gets the notice in front of its content, no content of the choice stands before it in the chunk, and the parts of the other choices are as they were |
| SseStream.FastPathShowsTheSame | src/deepseek_bridge/asgi.py:1120-1138 | With no notice pending, the mix of shortcut and full path shows each choice what the full path alone shows |
| SseStream.NoticeIsShownOnce | src/deepseek_bridge/asgi.py:1084-1147 | With and without a display, in every stream that reaches `[DONE]` each choice shows its content outside well-bracketed blocks, and exactly one choice, the one that takes the notice or the first if none does, shows the notice there too, once and in one piece |
| SseStream.ShownInPieces | src/deepseek_bridge/asgi.py:1065-1147 | What a stream shows for a choice is a well-bracketed run of markers, escaped reasoning and content, closed at `[DONE]`, and content alone without a display |
| SseStream.TakenParts | src/deepseek_bridge/asgi.py:1120-1147 | A pending notice changes one part of one choice and nothing else; before it the choice has said nothing, unless the shortcut carried text for it |
| Sse.RewriteSseLine | src/deepseek_bridge/asgi.py:1065-1170 | A line is one step of the stream specification: what is sent, what is accumulated, what stays pending and, for every store, what is written; `[DONE]` makes everything final and closes every block |
| Sse.StreamChatResponse | src/deepseek_bridge/asgi.py:771-850 | Whether the stream ends or breaks off anywhere, the client was shown what the specification says, every choice is final under every context and was queued for each scope at most twice. If nothing came after its finish, its message was written, for every store; and without limits it is found under every context by its content and calls and by the id, form and name of each call. At `[DONE]` exactly one choice has shown the notice |
| StreamRoundTrip.StreamShowsTheFoldedMessage | src/deepseek_bridge/asgi.py:1084-1170 | Without a notice, the stream as rewritten, shortcut included, shows the folded message of the whole stream |
| StreamRoundTrip.StreamShowsTheNotice | src/deepseek_bridge/asgi.py:1084-1170 | A stream whose choice takes the notice shows the block of the reasoning before it, the notice, the block of the reasoning behind it, and the content |
| StreamRoundTrip.PlainStreamShowsTheNotice | src/deepseek_bridge/asgi.py:1084-1170 | Without a display it shows the notice and the content |
| StreamRoundTrip.WhatIsRecorded | src/deepseek_bridge/asgi.py:1120-1148 | The accumulator misses neither reasoning nor calls, misses text exactly if the shortcut carried some, and gets the notice exactly if the choice took it |
| StreamRoundTrip.RecordedTextIsWhole | src/deepseek_bridge/asgi.py:1120-1148 | Below the limit, the recorded content is the whole content behind the pending notice if and only if the choice takes the notice and no line on the shortcut carried text for it; reasoning is always whole |
| StreamRoundTrip.RecordedMessageIsWhole | src/deepseek_bridge/asgi.py:1120-1148 | The same condition decides whether what is recorded is the message that the deltas of the choice make up, with all their text, reasoning and merged calls, and with the notice in front |
| StreamRoundTrip.ShortcutCanLoseText | src/deepseek_bridge/asgi.py:1120-1138 | A stream that shows a text which is not recorded |
| StreamRoundTrip.ShortcutCanLoseTheNotice | src/deepseek_bridge/asgi.py:1109-1138 | A stream that shows a text in front of the notice and records neither, so that what comes back does not begin with the notice |
| StreamRoundTrip.NoticeCanCostSpace | src/deepseek_bridge/asgi.py:1140-1170 | A stream that is recorded whole and shown in order, and comes back without the leading space of its content |
| StreamRoundTrip.StreamedReplyEchoesBack | src/deepseek_bridge/asgi.py:1084-1170 | With or without a notice, a reply that reaches the recorder is recorded as a whole response would be, and what comes back reads to the next request like the echo of that response, if and only if no block stands between the notice and a content with leading whitespace |
| StreamRoundTrip.StreamedReplyIsFoundAgain | src/deepseek_bridge/asgi.py:771-850 | Once stored under a history, a streamed reply sent back after that history finds its reasoning |
| StreamedConversations.StreamLeavesItKept | src/deepseek_bridge/asgi.py:841-850 | What the end of the stream promises of the cache is what the next turn needs: the reply under every recording context |
| StreamedConversations.KeptIsRecorded | src/deepseek_bridge/streaming/_accumulator.py:187-195 | A cache that has lost nothing and keeps the reply under every context has all the keys that recording the whole reply would write |
| StreamedConversations.StreamedTurnContinues | src/deepseek_bridge/asgi.py:771-850 | A turn whose reply is streamed well is a turn of a conversation like any other, if and only if no space is lost, so that the theorems on conversations hold of it |
| StreamedConversations.StreamedRecoverySticks | src/deepseek_bridge/transform/_prepare.py:240-300 | Recovery sticks for streamed replies: nothing is missing, nothing is cut and no notice is issued again in later turns |

## Left out

- HTTP transport, retries, CORS, request bodies, configuration, command line, logging, tracing and metrics; the older threaded server, whose line rewriting duplicates the one modelled.
- The Responses converter and the Ollama and embeddings endpoints: long but flat.
- SHA-256 and JSON canonicalisation are taken as injective; the parsed chunk and the byte test for a field name meet in the hypothesis `Honest`, which a key name written with escapes would break.
- The choice of thinking mode and effort, the field lists, `tools` and `tool_choice` of a request: single-branch conversions. A request comes with its namespace and thinking mode.
- The diagnostics of a prepared request, usage chunks, model names and fingerprints of a response.
- Word characters outside ASCII at the boundary after a tag name; tool calls that are not JSON objects; the difference between an absent and an empty list of tool calls.
- Prepare.PrepareUpstreamRequest: for a store with a row limit the outgoing messages are not a function of the cache at the start, since each backfill may evict; they are determined round by round from what the store holds by then.
- Conversations.EveryTurnIsRepaired: the client sends back one choice of each reply and adds no assistant messages of its own, contents are stable under stripping, and the cache forgets no key between turns.
- Conversations.RepliesAreRepairedExactly: that nobody rewrites a signature key is a hypothesis about each turn's cache; for streamed replies the end of the stream is proved to leave the keys, and for a stream of one choice that was not final before also the texts (`Accumulator.StreamAccumulator.Finish`).
- StickyRecovery.RecoverySticks: the first turn of the conversation is the one that recovers, and later replies of the model do not begin with the notice themselves.
- SseStream.NoticeIsShownOnce: a stream that breaks off before `[DONE]` may end without the notice.
- StreamRoundTrip.StreamShowsTheFoldedMessage: reasoning that comes after content, tool calls or the finish opens further blocks, which folding the whole message does not; what such a stream shows is stated in pieces (`SseStream.ShownInPieces`).
- StreamedConversations.StreamedTurnContinues: roles other than the assistant's in the deltas, and texts of 500,000 characters or more, of which a part may be dropped.
- Storage failures, SQLite pragmas, vacuum and the maintenance thread; pruning an existing file when a store is opened.
- ReasoningCache.SelectNewest: the choice among rows of equal time is left open; `BoundedStore` assumes a strictly increasing clock.
- Valkey: one client whose clock is the server's, operations that succeed, and values that expire at written time plus age. Replicas that interleave the separate value and index commands are not modelled, nor are pattern characters in the key prefix.
- Accumulator.StreamAccumulator.QueueChoice: a buffered message is a copy, while the source shares the list of tool calls with the live choice until the flush at the end of the same chunk.
- Display metadata (identifier, creation time) of the closing chunk.
