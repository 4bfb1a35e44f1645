/** Concrete reports, worked out from the definitions. */
module ReportExamples {
  import opened ElectionResults
  import opened AnswerOrder
  import opened Text
  import opened PrettyPrint

  const PluralityAtLarge: string := "plurality-at-large"

  /** Two winners, two losers: winners first, then the losers by count, 9 before 5. */
  lemma MarkedOrderExample()
    ensures var a := Answer("A", 20, Some(1));
            var b := Answer("B", 15, Some(2));
            var c := Answer("C", 5, None);
            var d := Answer("D", 9, None);
            AnswerSection([a, b, c, d], true, false, None)
              == [AnswerLine(Numbered(1), "A", 20, None), AnswerLine(Numbered(2), "B", 15, None),
                  AnswerLine(NotElected, "D", 9, None), AnswerLine(NotElected, "C", 5, None)]
  {
    var a := Answer("A", 20, Some(1));
    var b := Answer("B", 15, Some(2));
    var c := Answer("C", 5, None);
    var d := Answer("D", 9, None);
    MarkedOrderSplit(a, b, c, d);
    assert SortDesc([c, d]) == [d, c] by {
      assert [c, d][1..] == [d] && [d][1..] == [];
      assert SortDesc([d]) == [d];
      assert Insert(c, [d]) == [d, c];
    }
    assert DisplayOrder([a, b, c, d], true) == [a, b, d, c];
    var sec := AnswerSection([a, b, c, d], true, false, None);
    assert |sec| == 4;
    assert sec[0] == AnswerLine(Numbered(1), "A", 20, None);
    assert sec[1] == AnswerLine(Numbered(2), "B", 15, None);
    assert sec[2] == AnswerLine(NotElected, "D", 9, None);
    assert sec[3] == AnswerLine(NotElected, "C", 5, None);
  }

  /** The split of two elected answers followed by two non-elected ones. */
  lemma MarkedOrderSplit(a: Answer, b: Answer, c: Answer, d: Answer)
    requires IsWinner(a) && IsWinner(b) && !IsWinner(c) && !IsWinner(d)
    ensures Winners([a, b, c, d]) == [a, b] && Losers([a, b, c, d]) == [c, d]
  {
    SelectStep(d, [], true);
    SelectStep(c, [d], true);
    SelectStep(b, [c, d], true);
    SelectStep(a, [b, c, d], true);
    SelectStep(d, [], false);
    SelectStep(c, [d], false);
    SelectStep(b, [c, d], false);
    SelectStep(a, [b, c, d], false);
  }

  lemma SelectStep(x: Answer, s: seq<Answer>, elected: bool)
    ensures Select([x] + s, elected) == (if IsWinner(x) == elected then [x] else []) + Select(s, elected)
  {
    assert ([x] + s)[0] == x && ([x] + s)[1..] == s;
  }

  /** Winners are numbered in list order: the answer elected second is listed first and gets 1. */
  lemma WinnerPositionIgnoredExample()
    ensures var second := Answer("B", 15, Some(2));
            var first := Answer("A", 20, Some(1));
            AnswerSection([second, first], true, false, None)
              == [AnswerLine(Numbered(1), "B", 15, None), AnswerLine(Numbered(2), "A", 20, None)]
  {
    var second := Answer("B", 15, Some(2));
    var first := Answer("A", 20, Some(1));
    assert [first][1..] == [] && [second, first][1..] == [first];
    assert Select([first], true) == [first] && Select([first], false) == [];
    assert Winners([second, first]) == [second, first];
    assert Losers([second, first]) == [];
  }

  /** Equal counts keep their list order when winners are not marked. */
  lemma StableTiesExample()
    ensures var x := Answer("X", 3, Some(1));
            var y := Answer("Y", 7, None);
            var z := Answer("Z", 3, None);
            AnswerSection([x, y, z], false, false, None)
              == [AnswerLine(Numbered(1), "Y", 7, None), AnswerLine(Numbered(2), "X", 3, None),
                  AnswerLine(Numbered(3), "Z", 3, None)]
  {
    var x := Answer("X", 3, Some(1));
    var y := Answer("Y", 7, None);
    var z := Answer("Z", 3, None);
    assert [z][1..] == [] && [y, z][1..] == [z] && [x, y, z][1..] == [y, z];
    assert SortDesc([z]) == [z];
    assert SortDesc([y, z]) == [y, z];
    assert [y, z][1..] == [z];
    assert Insert(x, [z]) == [x, z];
    assert Insert(x, [y, z]) == [y, x, z];
    assert SortDesc([x, y, z]) == [y, x, z];
  }

  /**
   * 100 votes, one plurality question over total votes: the report whose
   * winner line is "1. A (60 votes, 60.00%)" and loser line "N. B (30 votes, 30.00%)".
   */
  lemma EndToEndExample()
    ensures var a := Answer("A", 60, Some(1));
            var b := Answer("B", 30, None);
            var q := Question("Q1", PluralityAtLarge, OverTotalVotes, Totals(90, 5, 5), [a, b]);
            Report(Results(100, [q]), true, true, PluralityAtLarge)
              == Printed([QuestionTitle("Q1"), TotalVotesLine(100),
                          BlankVotesLine(5, 5.0), NullVotesLine(5, 5.0), ValidVotesLine(90, 90.0),
                          OptionsHeader(OverTotalVotes),
                          AnswerLine(Numbered(1), "A", 60, Some(60.0)),
                          AnswerLine(NotElected, "B", 30, Some(30.0)),
                          ClosingLine], None)
  {
    var a := Answer("A", 60, Some(1));
    var b := Answer("B", 30, None);
    var q := Question("Q1", PluralityAtLarge, OverTotalVotes, Totals(90, 5, 5), [a, b]);
    assert Contains(PluralityAtLarge, PluralityAtLarge);
    assert [b][1..] == [] && [a, b][1..] == [b];
    assert Select([b], true) == [] && Select([b], false) == [b];
    assert Winners([a, b]) == [a];
    assert Losers([a, b]) == [b];
    assert SortDesc([b]) == [b];
    assert [q][1..] == [];
    assert SelectBase(OverTotalVotes, 100, 90, None) == Some(100);
    assert Percentage(60, 100) == 60.0 && Percentage(30, 100) == 30.0;
    assert Percentage(5, 100) == 5.0 && Percentage(90, 100) == 90.0;
    var sec := AnswerSection([a, b], true, true, Some(100));
    assert DisplayOrder([a, b], true) == [a, b];
    assert |sec| == 2;
    assert sec[0] == AnswerLine(Numbered(1), "A", 60, Some(60.0));
    assert sec[1] == AnswerLine(NotElected, "B", 30, Some(30.0));
    assert Report(Results(100, [q]), true, true, PluralityAtLarge)
        == Prepend(QuestionHeader(100, q) + AnswerSection([a, b], true, true, Some(100)),
                   ReportFrom(100, [], true, true, PluralityAtLarge, Some(100)));
  }

  /** A question of another tally type leaves nothing but the closing line. */
  lemma SkippedQuestionExample()
    ensures var q := Question("Q", "borda", OverTotalVotes, Totals(1, 0, 0), [Answer("A", 1, None)]);
            Report(Results(1, [q]), true, true, PluralityAtLarge) == Printed([ClosingLine], None)
  {
    var q := Question("Q", "borda", OverTotalVotes, Totals(1, 0, 0), [Answer("A", 1, None)]);
    assert |"borda"| < |PluralityAtLarge|;
    assert !Contains("borda", PluralityAtLarge);
    assert [q][1..] == [];
    assert ReportFrom(1, [q], true, true, PluralityAtLarge, None)
        == ReportFrom(1, [], true, true, PluralityAtLarge, None);
  }

  /**
   * An unknown percentage base keeps the base of the previous printed
   * question: 2 votes over the first question's 4 valid votes is 50%.
   */
  lemma StaleBaseExample()
    ensures var q1 := Question("Q1", PluralityAtLarge, OverTotalValidVotes, Totals(4, 0, 6), []);
            var q2 := Question("Q2", PluralityAtLarge, "", Totals(9, 1, 0), [Answer("A", 2, None)]);
            var r := Report(Results(10, [q1, q2]), false, true, PluralityAtLarge);
            r.error == None && AnswerLine(Numbered(1), "A", 2, Some(50.0)) in r.lines
  {
    var q1 := Question("Q1", PluralityAtLarge, OverTotalValidVotes, Totals(4, 0, 6), []);
    var q2 := Question("Q2", PluralityAtLarge, "", Totals(9, 1, 0), [Answer("A", 2, None)]);
    assert Contains(PluralityAtLarge, PluralityAtLarge);
    assert [q1, q2][1..] == [q2];
    assert SortDesc([Answer("A", 2, None)]) == [Answer("A", 2, None)];
    assert [q2][1..] == [];
    assert SelectBase(OverTotalValidVotes, 10, 4, None) == Some(4);
    assert SelectBase("", 10, 9, Some(4)) == Some(4);
    var tail := ReportFrom(10, [q2], false, true, PluralityAtLarge, Some(4));
    assert tail == Prepend(QuestionHeader(10, q2) + AnswerSection(q2.answers, false, true, Some(4)),
                           ReportFrom(10, [], false, true, PluralityAtLarge, Some(4)));
    assert tail.lines[6] == AnswerLine(Numbered(1), "A", 2, Some(50.0));
  }

  /** With no base ever selected, the first answer line raises, after the question's summary. */
  lemma UnboundBaseExample()
    ensures var q := Question("Q", PluralityAtLarge, "", Totals(3, 0, 0), [Answer("A", 3, None)]);
            Report(Results(3, [q]), true, true, PluralityAtLarge)
              == Printed(QuestionHeader(3, q), Some(PercentBaseUnbound))
  {
    assert Contains(PluralityAtLarge, PluralityAtLarge);
  }
}
