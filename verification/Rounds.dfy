/** A preparation as a run of rounds, each a normalisation, for a store that may evict as it writes. */
module Rounds {
  import opened Transcript
  import opened Keys
  import opened ReasoningCache
  import opened Normalize
  import opened Recovery

  datatype MissingStrategy = Recover | Reject

  datatype Round = Round(input: seq<Message>, output: seq<Message>)

  /** `fellBack` says that some cut fell back to the latest user message. */
  datatype Counts = Counts(recovered: nat, dropped: int, steps: seq<Strategy>, fellBack: bool)

  /** Another round follows: something is missing, and there is a notice to continue from or a cut that drops
      messages. */
  ghost predicate GoesOn(pre: seq<Message>, strategy: MissingStrategy, round: Round, first: bool) {
    && strategy == Recover && Violations(round.output) != []
    && ((first && LastNotice(pre) != -1) || CutBack(round.output, Violations(round.output)).dropped != 0)
  }

  ghost function NextInput(pre: seq<Message>, round: Round, first: bool): seq<Message> {
    if first && LastNotice(pre) != -1 then FromBoundary(pre, LastNotice(pre))
    else CutBack(round.output, Violations(round.output)).messages
  }

  /** The rounds follow each other and lead from one table to the other. */
  ghost predicate RoundsLead(pre: seq<Message>, strategy: MissingStrategy, rounds: seq<Round>, before: Table,
                             after: Table, namespace: Namespace, closed: bool, limits: Limits)
    decreases |rounds|
  {
    rounds != []
    && var last := rounds[|rounds| - 1];
      if |rounds| == 1 then last.input == pre && Repairs(before, after, pre, last.output, namespace, closed, limits)
      else
        var front := rounds[..|rounds| - 1];
        && GoesOn(pre, strategy, front[|front| - 1], |front| == 1)
        && last.input == NextInput(pre, front[|front| - 1], |front| == 1)
        && exists middle ::
             RoundsLead(pre, strategy, front, before, middle, namespace, closed, limits)
             && Repairs(middle, after, last.input, last.output, namespace, closed, limits)
  }

  ghost predicate Ended(pre: seq<Message>, strategy: MissingStrategy, rounds: seq<Round>) {
    rounds != [] && !GoesOn(pre, strategy, rounds[|rounds| - 1], |rounds| == 1)
  }

  /** What the rounds add up to. */
  ghost function CountsOf(pre: seq<Message>, rounds: seq<Round>): Counts
    decreases |rounds|
  {
    if |rounds| <= 1 then Counts(0, 0, [], false)
    else
      var front := rounds[..|rounds| - 1];
      var earlier, missing := CountsOf(pre, front), Violations(front[|front| - 1].output);
      if |front| == 1 && LastNotice(pre) != -1 then Counts(0, 0, [ContinuedBoundary], false)
      else
        var cut := CutBack(front[|front| - 1].output, missing);
        Counts(earlier.recovered + |missing|, earlier.dropped + cut.dropped, earlier.steps + [cut.strategy],
               earlier.fellBack || cut.notice)
  }

  lemma FirstRound(pre: seq<Message>, strategy: MissingStrategy, output: seq<Message>, before: Table, after: Table,
                   namespace: Namespace, closed: bool, limits: Limits)
    requires Repairs(before, after, pre, output, namespace, closed, limits)
    ensures RoundsLead(pre, strategy, [Round(pre, output)], before, after, namespace, closed, limits)
    ensures CountsOf(pre, [Round(pre, output)]) == Counts(0, 0, [], false)
  {
  }

  lemma OneMoreRound(pre: seq<Message>, strategy: MissingStrategy, rounds: seq<Round>, next: Round, before: Table,
                     middle: Table, after: Table, namespace: Namespace, closed: bool, limits: Limits)
    requires RoundsLead(pre, strategy, rounds, before, middle, namespace, closed, limits)
    requires GoesOn(pre, strategy, rounds[|rounds| - 1], |rounds| == 1)
    requires next.input == NextInput(pre, rounds[|rounds| - 1], |rounds| == 1)
    requires Repairs(middle, after, next.input, next.output, namespace, closed, limits)
    ensures RoundsLead(pre, strategy, rounds + [next], before, after, namespace, closed, limits)
    ensures var counts, missing := CountsOf(pre, rounds), Violations(rounds[|rounds| - 1].output);
      var cut := CutBack(rounds[|rounds| - 1].output, missing);
      CountsOf(pre, rounds + [next])
      == if |rounds| == 1 && LastNotice(pre) != -1 then Counts(0, 0, [ContinuedBoundary], false)
         else Counts(counts.recovered + |missing|, counts.dropped + cut.dropped, counts.steps + [cut.strategy],
                     counts.fellBack || cut.notice)
  {
    hide Repairs, GoesOn, NextInput, CutBack, Violations, LastNotice;
    var longer := rounds + [next];
    assert longer[..|longer| - 1] == rounds;
  }

  lemma RepairsKeepLength(before: Table, after: Table, messages: seq<Message>, normalized: seq<Message>,
                          namespace: Namespace, closed: bool, limits: Limits)
    requires Repairs(before, after, messages, normalized, namespace, closed, limits)
    ensures |normalized| == |messages|
  {
  }

  lemma CutKeepsCount(output: seq<Message>)
    requires CutBack(output, Violations(output)).dropped != 0
    ensures var cut := CutBack(output, Violations(output)); |cut.messages| == |output| + 1 - cut.dropped
  {
    var kept := CutConserves(output, Violations(output));
  }

  /** Conservation over the whole preparation: every message that is not sent was counted as retired or dropped, and
      every round after the first brings one recovery message. */
  lemma {:induction false} RoundsConserve(pre: seq<Message>, strategy: MissingStrategy, rounds: seq<Round>,
                                          before: Table, after: Table, namespace: Namespace, closed: bool,
                                          limits: Limits)
    requires RoundsLead(pre, strategy, rounds, before, after, namespace, closed, limits)
    ensures |rounds[|rounds| - 1].output| + CountsOf(pre, rounds).dropped
         + (if |rounds| > 1 && LastNotice(pre) != -1 then Retired(pre, LastNotice(pre)) else 0)
         == |pre| + |rounds| - 1
    decreases |rounds|
  {
    hide Repairs, Violations, LastNotice, FromBoundary, Retired, CutBack;
    if |rounds| == 1 {
      RepairsKeepLength(before, after, pre, rounds[0].output, namespace, closed, limits);
    } else {
      var last, front := rounds[|rounds| - 1], rounds[..|rounds| - 1];
      var middle :| RoundsLead(pre, strategy, front, before, middle, namespace, closed, limits)
        && Repairs(middle, after, last.input, last.output, namespace, closed, limits);
      RoundsConserve(pre, strategy, front, before, middle, namespace, closed, limits);
      RepairsKeepLength(middle, after, last.input, last.output, namespace, closed, limits);
      if |front| == 1 && LastNotice(pre) != -1 {
        NoticeIsAssistant(pre);
        BoundaryConserves(pre, LastNotice(pre));
      } else {
        CutKeepsCount(front[|front| - 1].output);
      }
    }
  }

  lemma NoticeIsAssistant(pre: seq<Message>)
    requires LastNotice(pre) != -1
    ensures LastNotice(pre) < |pre| && pre[LastNotice(pre)].role == Assistant
  {
  }

  /** The rounds so far, with what they add up to; they have continued from a notice if they had to. */
  ghost predicate InRounds(pre: seq<Message>, strategy: MissingStrategy, rounds: seq<Round>, before: Table,
                           after: Table, namespace: Namespace, closed: bool, limits: Limits, output: seq<Message>,
                           counts: Counts)
  {
    && RoundsLead(pre, strategy, rounds, before, after, namespace, closed, limits)
    && rounds[|rounds| - 1].output == output && CountsOf(pre, rounds) == counts
    && (|rounds| == 1 && strategy == Recover && Violations(output) != [] ==> LastNotice(pre) == -1)
  }

  lemma RoundsAreSome(pre: seq<Message>, strategy: MissingStrategy, rounds: seq<Round>, before: Table, after: Table,
                      namespace: Namespace, closed: bool, limits: Limits)
    requires RoundsLead(pre, strategy, rounds, before, after, namespace, closed, limits)
    ensures rounds != []
  {
  }

  lemma CuttingGoesOn(pre: seq<Message>, strategy: MissingStrategy, round: Round, first: bool)
    requires strategy == Recover && Violations(round.output) != [] && (first ==> LastNotice(pre) == -1)
    requires CutBack(round.output, Violations(round.output)).dropped != 0
    ensures GoesOn(pre, strategy, round, first)
    ensures NextInput(pre, round, first) == CutBack(round.output, Violations(round.output)).messages
  {
    hide Violations, LastNotice, CutBack;
  }

  /** One cut more. */
  lemma CutIsARound(pre: seq<Message>, strategy: MissingStrategy, rounds: seq<Round>, before: Table, middle: Table,
                    after: Table, namespace: Namespace, closed: bool, limits: Limits, output: seq<Message>,
                    counts: Counts, next: seq<Message>)
    requires strategy == Recover && Violations(output) != []
    requires InRounds(pre, strategy, rounds, before, middle, namespace, closed, limits, output, counts)
    requires var cut := CutBack(output, Violations(output));
      cut.dropped != 0 && Repairs(middle, after, cut.messages, next, namespace, closed, limits)
    ensures var cut := CutBack(output, Violations(output));
      InRounds(pre, strategy, rounds + [Round(cut.messages, next)], before, after, namespace, closed, limits, next,
               Counts(counts.recovered + |Violations(output)|, counts.dropped + cut.dropped,
                      counts.steps + [cut.strategy], counts.fellBack || cut.notice))
  {
    hide Repairs, RoundsLead, CountsOf, Violations, LastNotice, CutBack, GoesOn, NextInput;
    var cut := CutBack(output, Violations(output));
    RoundsAreSome(pre, strategy, rounds, before, middle, namespace, closed, limits);
    CuttingGoesOn(pre, strategy, rounds[|rounds| - 1], |rounds| == 1);
    OneMoreRound(pre, strategy, rounds, Round(cut.messages, next), before, middle, after, namespace, closed, limits);
  }

  lemma RoundsEnd(pre: seq<Message>, strategy: MissingStrategy, rounds: seq<Round>, before: Table, after: Table,
                  namespace: Namespace, closed: bool, limits: Limits, output: seq<Message>, counts: Counts)
    requires InRounds(pre, strategy, rounds, before, after, namespace, closed, limits, output, counts)
    requires Violations(output) == [] || strategy != Recover || CutBack(output, Violations(output)).dropped == 0
    ensures Ended(pre, strategy, rounds)
  {
    hide Repairs, CountsOf, Violations, LastNotice, CutBack;
  }
}
