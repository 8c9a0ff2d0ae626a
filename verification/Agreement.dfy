/** When two histories have the same scope or the same turn, said of the messages themselves. */
module Agreement {
  import opened Transcript
  import opened Keys

  // ---------------------------------------------------------------- messages and histories that agree

  ghost predicate CallsAgree(a: ToolCall, b: ToolCall) {
    && a.id == b.id && a.name == b.name
    && (if a.kind == "" then "function" else a.kind) == (if b.kind == "" then "function" else b.kind)
    && ArgumentText(a.arguments) == ArgumentText(b.arguments)
  }

  /** The same message but for reasoning, and for how the arguments of its calls are given. */
  ghost predicate MessagesAgree(a: Message, b: Message) {
    && a.role == b.role && a.content == b.content && a.name == b.name && a.toolCallId == b.toolCallId
    && a.prefix == b.prefix
    && |a.toolCalls| == |b.toolCalls|
    && forall i :: 0 <= i < |a.toolCalls| ==> CallsAgree(a.toolCalls[i], b.toolCalls[i])
  }

  ghost predicate HistoriesAgree(a: seq<Message>, b: seq<Message>) {
    |a| == |b| && forall i :: 0 <= i < |a| ==> MessagesAgree(a[i], b[i])
  }

  /** The last run of user messages is `start` to `last`; without user messages everything counts. */
  ghost predicate IsLastUserRun(messages: seq<Message>, start: int, last: int) {
    if forall i :: 0 <= i < |messages| ==> messages[i].role != User then start == 0
    else
      && 0 <= start <= last < |messages|
      && (forall i :: start <= i <= last ==> messages[i].role == User)
      && (start > 0 ==> messages[start - 1].role != User)
      && forall i :: last < i < |messages| ==> messages[i].role != User
  }

  /** The indices are those of the messages that are not system messages, from the start of the last run of user
      messages on, in order. */
  ghost predicate IsTurn(messages: seq<Message>, indices: seq<int>) {
    && (forall j, k :: 0 <= j < k < |indices| ==> indices[j] < indices[k])
    && exists start, last :: IsLastUserRun(messages, start, last)
         && forall i :: i in indices <==> start <= i < |messages| && messages[i].role != System
  }

  ghost predicate AgreeAt(a: seq<Message>, ia: seq<int>, b: seq<Message>, ib: seq<int>) {
    && |ia| == |ib|
    && forall k :: 0 <= k < |ia| ==>
         0 <= ia[k] < |a| && 0 <= ib[k] < |b| && MessagesAgree(a[ia[k]], b[ib[k]])
  }

  /** The turns of two histories have the same messages. */
  ghost predicate TurnsAgree(a: seq<Message>, b: seq<Message>) {
    exists ia, ib :: IsTurn(a, ia) && IsTurn(b, ib) && AgreeAt(a, ia, b, ib)
  }

  // ---------------------------------------------------------------- scopes

  lemma CanonicalAgrees(a: Message, b: Message)
    ensures Canonical(a) == Canonical(b) <==> MessagesAgree(a, b)
  {
    var x, y := Canonical(a), Canonical(b);
    if x == y {
      forall i | 0 <= i < |a.toolCalls|
        ensures |a.toolCalls| == |b.toolCalls| && CallsAgree(a.toolCalls[i], b.toolCalls[i])
      {
        assert x.toolCalls[i] == y.toolCalls[i];
      }
    }
    if MessagesAgree(a, b) {
      forall i | 0 <= i < |a.toolCalls| ensures x.toolCalls[i] == y.toolCalls[i] {
        assert CallsAgree(a.toolCalls[i], b.toolCalls[i]);
      }
      assert x.toolCalls == y.toolCalls;
    }
  }

  /** Two histories have one scope exactly if the namespaces are equal and the messages agree, one by one. */
  lemma ScopesAgreeExactly(a: seq<Message>, namespace: Namespace, b: seq<Message>, other: Namespace)
    ensures ConversationScope(a, namespace) == ConversationScope(b, other)
      <==> namespace == other && HistoriesAgree(a, b)
  {
    hide MessagesAgree, Canonical;
    var x, y := CanonicalAll(a), CanonicalAll(b);
    if |a| == |b| {
      forall i | 0 <= i < |a| ensures x[i] == y[i] <==> MessagesAgree(a[i], b[i]) { CanonicalAgrees(a[i], b[i]); }
    }
  }

  // ---------------------------------------------------------------- turns

  lemma {:induction false} RunStartFacts(messages: seq<Message>, index: nat)
    requires index < |messages| && messages[index].role == User
    ensures var start := UserRunStart(messages, index);
      && (forall i :: start <= i <= index ==> messages[i].role == User)
      && (start > 0 ==> messages[start - 1].role != User)
  {
    if index > 0 && messages[index - 1].role == User { RunStartFacts(messages, index - 1); }
  }

  lemma TurnStartIsRunStart(messages: seq<Message>)
    ensures IsLastUserRun(messages, TurnStart(messages), LastUser(messages))
  {
    if LastUser(messages) != -1 { RunStartFacts(messages, LastUser(messages)); }
  }

  /** There is one such run. */
  lemma RunsAreUnique(messages: seq<Message>, start: int, last: int)
    requires IsLastUserRun(messages, start, last)
    ensures start == TurnStart(messages)
  {
    TurnStartIsRunStart(messages);
    var s, l := TurnStart(messages), LastUser(messages);
    if l != -1 {
      assert messages[l].role == User && messages[last].role == User;
      assert last == l;
    }
  }

  /** The indices of the messages from `start` on that are not system messages. */
  ghost function Others(messages: seq<Message>, start: nat): (indices: seq<int>)
    requires start <= |messages|
    ensures forall i :: i in indices <==> start <= i < |messages| && messages[i].role != System
    ensures forall k :: 0 <= k < |indices| ==> start <= indices[k] < |messages|
    ensures forall j, k :: 0 <= j < k < |indices| ==> indices[j] < indices[k]
    decreases |messages| - start
  {
    if start == |messages| then []
    else
      var rest := Others(messages, start + 1);
      if messages[start].role != System then [start] + rest else rest
  }

  ghost predicate Picked(messages: seq<Message>, indices: seq<int>, picked: seq<Message>) {
    |picked| == |indices|
    && forall k :: 0 <= k < |picked| ==> 0 <= indices[k] < |messages| && picked[k] == messages[indices[k]]
  }

  lemma OneMorePicked(messages: seq<Message>, indices: seq<int>, picked: seq<Message>, first: nat)
    requires Picked(messages, indices, picked) && first < |messages|
    ensures Picked(messages, [first] + indices, [messages[first]] + picked)
  {
  }

  lemma {:induction false} OthersAreKept(messages: seq<Message>, start: nat)
    requires start <= |messages|
    ensures Picked(messages, Others(messages, start), WithoutSystem(messages[start..]))
    decreases |messages| - start
  {
    hide WithoutSystem, Picked;
    if start == |messages| {
      assert messages[start..] == [];
      NothingWithoutSystem();
      NothingPicked(messages);
    } else {
      OthersAreKept(messages, start + 1);
      OneMoreWithoutSystem(messages, start);
      OneMorePicked(messages, Others(messages, start + 1), WithoutSystem(messages[start + 1..]), start);
    }
  }

  lemma NothingPicked(messages: seq<Message>)
    ensures Picked(messages, [], [])
  {
  }

  lemma NothingWithoutSystem()
    ensures WithoutSystem([]) == []
  {
  }

  lemma OneMoreWithoutSystem(messages: seq<Message>, start: nat)
    requires start < |messages|
    ensures WithoutSystem(messages[start..])
         == if messages[start].role != System then [messages[start]] + WithoutSystem(messages[start + 1..])
            else WithoutSystem(messages[start + 1..])
  {
    assert messages[start..][0] == messages[start] && messages[start..][1..] == messages[start + 1..];
  }

  /** An increasing list is determined by what it holds. */
  lemma {:induction false} SameIncreasing(a: seq<int>, b: seq<int>)
    requires forall j, k :: 0 <= j < k < |a| ==> a[j] < a[k]
    requires forall j, k :: 0 <= j < k < |b| ==> b[j] < b[k]
    requires forall i :: i in a <==> i in b
    ensures a == b
  {
    assert b == [] || b[0] in b;
    if a != [] {
      assert a[0] in a;
      var j :| 0 <= j < |b| && b[j] == a[0];
      var k :| 0 <= k < |a| && a[k] == b[0];
      assert a[0] == b[0];
      forall i ensures i in a[1..] <==> i in b[1..] {
        assert i in a[1..] <==> i in a && i != a[0];
        assert i in b[1..] <==> i in b && i != b[0];
      }
      SameIncreasing(a[1..], b[1..]);
      assert a == [a[0]] + a[1..] && b == [b[0]] + b[1..];
    }
  }

  lemma TurnIsOthers(messages: seq<Message>, indices: seq<int>)
    ensures IsTurn(messages, indices) <==> indices == Others(messages, TurnStart(messages))
  {
    TurnStartIsRunStart(messages);
    hide TurnStart, LastUser;
    if IsTurn(messages, indices) {
      var start, last :| IsLastUserRun(messages, start, last)
        && forall i :: i in indices <==> start <= i < |messages| && messages[i].role != System;
      RunsAreUnique(messages, start, last);
      SameIncreasing(indices, Others(messages, TurnStart(messages)));
    }
  }

  lemma TurnContextAt(messages: seq<Message>)
    ensures var turn, indices := TurnContext(messages), Others(messages, TurnStart(messages));
      |turn| == |indices| && forall k :: 0 <= k < |turn| ==> turn[k] == Canonical(messages[indices[k]])
  {
    hide Canonical, TurnStart, WithoutSystem;
    OthersAreKept(messages, TurnStart(messages));
  }

  /** Two histories have one turn exactly if the messages of their turns agree, one by one. */
  lemma TurnsAgreeExactly(a: seq<Message>, b: seq<Message>)
    ensures TurnContext(a) == TurnContext(b) <==> TurnsAgree(a, b)
  {
    hide TurnContext, TurnStart, MessagesAgree, Canonical, IsTurn;
    var ia, ib := Others(a, TurnStart(a)), Others(b, TurnStart(b));
    TurnContextAt(a);
    TurnContextAt(b);
    TurnIsOthers(a, ia);
    TurnIsOthers(b, ib);
    if |ia| == |ib| {
      forall k | 0 <= k < |ia|
        ensures TurnContext(a)[k] == TurnContext(b)[k] <==> MessagesAgree(a[ia[k]], b[ib[k]])
      {
        assert ia[k] in ia && ib[k] in ib;
        CanonicalAgrees(a[ia[k]], b[ib[k]]);
      }
    }
    if TurnContext(a) == TurnContext(b) {
      forall k | 0 <= k < |ia| ensures 0 <= ia[k] < |a| && 0 <= ib[k] < |b| { assert ia[k] in ia && ib[k] in ib; }
      assert AgreeAt(a, ia, b, ib);
    }
    if TurnsAgree(a, b) {
      var ja, jb :| IsTurn(a, ja) && IsTurn(b, jb) && AgreeAt(a, ja, b, jb);
      TurnIsOthers(a, ja);
      TurnIsOthers(b, jb);
    }
  }
}
