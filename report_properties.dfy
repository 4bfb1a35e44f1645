/**
 * What the formatter's report promises: the answer orderings and their
 * labels, the percentage bases, the summary lines, and which questions
 * appear at all.
 */
module ReportProperties {
  import opened ElectionResults
  import opened AnswerOrder
  import opened Text
  import opened PrettyPrint

  /** A count between zero and a positive base is between 0% and 100% of it. */
  lemma PercentageInRange(num: int, base: int)
    requires 0 <= num <= base && base > 0
    ensures 0.0 <= Percentage(num, base) <= 100.0
  {
    var n, b := num as real, base as real;
    assert Percentage(num, base) == n * 100.0 / b;
    assert n * 100.0 / b <= b * 100.0 / b;
  }

  /**
   * The summary lines: the three percentages are over the document's total
   * votes whatever base the question configures, and the "Null votes" line
   * shows the blank-vote count.
   */
  lemma SummaryLines(totalVotes: int, q: Question, otherBase: string)
    ensures var h := QuestionHeader(totalVotes, q);
            var t := q.totals;
            |h| == 6 && h[0] == QuestionTitle(q.title) && h[1] == TotalVotesLine(totalVotes)
            && h[2].BlankVotesLine? && h[2].votes == t.blankVotes
            && h[3].NullVotesLine? && h[3].votes == t.blankVotes
            && h[4].ValidVotesLine? && h[4].votes == t.validVotes
            && h[5] == OptionsHeader(q.answerTotalVotesPercentage)
            && (totalVotes == 0 ==> h[2].percent == 0.0 && h[3].percent == 0.0 && h[4].percent == 0.0)
            && (totalVotes != 0 ==>
                  h[2].percent * (totalVotes as real) == (t.blankVotes as real) * 100.0
                  && h[3].percent * (totalVotes as real) == (t.nullVotes as real) * 100.0
                  && h[4].percent * (totalVotes as real) == (t.validVotes as real) * 100.0)
            && QuestionHeader(totalVotes, q.(answerTotalVotesPercentage := otherBase))[..5] == h[..5]
  {
  }

  /** When the totals add up to a positive total, the three summary percentages add up to 100. */
  lemma SummaryPercentagesSum(totalVotes: int, q: Question)
    requires totalVotes == q.totals.validVotes + q.totals.blankVotes + q.totals.nullVotes
    requires totalVotes > 0
    ensures var h := QuestionHeader(totalVotes, q);
            h[2].percent + h[3].percent + h[4].percent == 100.0
  {
    var h := QuestionHeader(totalVotes, q);
    var t := q.totals;
    SharesOfWhole(h[2].percent, h[3].percent, h[4].percent,
      t.blankVotes as real, t.nullVotes as real, t.validVotes as real, totalVotes as real);
  }

  /** Three shares of a positive whole, each scaled to 100, add up to 100. */
  lemma SharesOfWhole(p1: real, p2: real, p3: real, x1: real, x2: real, x3: real, whole: real)
    requires whole > 0.0 && whole == x1 + x2 + x3
    requires p1 * whole == x1 * 100.0 && p2 * whole == x2 * 100.0 && p3 * whole == x3 * 100.0
    ensures p1 + p2 + p3 == 100.0
  {
    assert (p1 + p2 + p3) * whole == p1 * whole + p2 * whole + p3 * whole;
    assert (p1 + p2 + p3 - 100.0) * whole == 0.0;
  }

  /** In the marked order the winners come first, and the rest is count-sorted. */
  lemma WinnersFirst(answers: seq<Answer>)
    ensures var o := DisplayOrder(answers, true);
            var w := |Winners(answers)|;
            w <= |o| == |answers|
            && (forall k :: 0 <= k < |o| ==> (IsWinner(o[k]) <==> k < w))
            && NonIncreasing(o[w..])
  {
    PartitionIsPermutation(answers);
    PartitionLength(answers);
    SelectMembers(answers, true);
    SelectMembers(answers, false);
    SortDescIsStableSort(Losers(answers));
    var o := DisplayOrder(answers, true);
    var w := |Winners(answers)|;
    var l := SortDesc(Losers(answers));
    assert o[w..] == l;
    forall k | 0 <= k < |o| ensures IsWinner(o[k]) <==> k < w {
      if k < w {
        assert o[k] in Winners(answers);
      } else {
        assert o[k] == l[k - w];
        assert o[k] in multiset(Losers(answers));
      }
    }
  }

  /**
   * The marked display order: the elected answers first, in their list
   * order; then every other answer by non-increasing count with ties in
   * list order; nothing lost or repeated.
   */
  lemma MarkedOrder(answers: seq<Answer>)
    ensures var o := DisplayOrder(answers, true);
            var w := |Winners(answers)|;
            |o| == |answers|
            && multiset(o) == multiset(answers)
            && (forall k :: 0 <= k < |o| ==> (IsWinner(o[k]) <==> k < w))
            && o[..w] == Winners(answers)
            && NonIncreasing(o[w..]) && SameCountGroups(o[w..], Losers(answers))
  {
    WinnersFirst(answers);
    PartitionIsPermutation(answers);
    PartitionLength(answers);
    SortDescIsStableSort(Losers(answers));
    var o := DisplayOrder(answers, true);
    var w := |Winners(answers)|;
    assert o[..w] == Winners(answers);
    assert o[w..] == SortDesc(Losers(answers));
  }

  /**
   * With winners marked, line k shows the k-th answer of the marked order,
   * numbered k+1 when it is a winner and labelled "N" otherwise.
   */
  lemma MarkedSection(answers: seq<Answer>, showPercent: bool, base: Option<int>)
    requires showPercent && |answers| > 0 ==> base.Some?
    ensures var sec := AnswerSection(answers, true, showPercent, base);
            var o := DisplayOrder(answers, true);
            |sec| == |answers|
            && (forall k :: 0 <= k < |sec| ==>
                  sec[k] == RenderAnswer(if IsWinner(o[k]) then Numbered(k + 1) else NotElected, o[k], showPercent, base))
  {
    WinnersFirst(answers);
  }

  /**
   * The unmarked display order: every answer, by non-increasing count with
   * ties in list order; nothing is lost or repeated.
   */
  lemma RankedOrder(answers: seq<Answer>)
    ensures var o := DisplayOrder(answers, false);
            |o| == |answers| && multiset(o) == multiset(answers)
            && NonIncreasing(o) && SameCountGroups(o, answers)
  {
    SortDescIsStableSort(answers);
  }

  /**
   * Without winner marking, line k shows the k-th answer of that order,
   * numbered k+1, so the printed counts never increase down the list.
   */
  lemma RankedSection(answers: seq<Answer>, showPercent: bool, base: Option<int>)
    requires showPercent && |answers| > 0 ==> base.Some?
    ensures var sec := AnswerSection(answers, false, showPercent, base);
            var o := DisplayOrder(answers, false);
            |sec| == |answers|
            && (forall k :: 0 <= k < |sec| ==> sec[k] == RenderAnswer(Numbered(k + 1), o[k], showPercent, base))
            && (forall i, j :: 0 <= i < j < |sec| ==> sec[i].votes >= sec[j].votes)
  {
    RankedOrder(answers);
    var sec := AnswerSection(answers, false, showPercent, base);
    var o := DisplayOrder(answers, false);
    assert forall k :: 0 <= k < |sec| ==> sec[k].votes == o[k].totalCount;
  }

  /** The percentage base a question configures, when it configures a known one. */
  function OwnBase(totalVotes: int, q: Question): Option<int> {
    SelectBase(q.answerTotalVotesPercentage, totalVotes, q.totals.validVotes, None)
  }

  /**
   * With a known base, each answer line shows its count as a percentage of
   * the document's total votes ("over-total-votes") or of the question's
   * valid votes ("over-total-valid-votes").
   */
  lemma AnswerPercentBase(totalVotes: int, q: Question, markWinners: bool)
    requires IsKnownBase(q.answerTotalVotesPercentage)
    ensures var sec := AnswerSection(q.answers, markWinners, true, OwnBase(totalVotes, q));
            var over := if q.answerTotalVotesPercentage == OverTotalVotes then totalVotes else q.totals.validVotes;
            forall k :: 0 <= k < |sec| ==> sec[k].AnswerLine? && sec[k].shown == Some(Percentage(sec[k].votes, over))
  {
  }

  /** The questions whose tally type contains `filterName`, in document order. */
  function Matching(qs: seq<Question>, filterName: string): (r: seq<Question>)
    ensures forall q :: q in r <==> q in qs && Contains(q.tallyType, filterName)
    ensures |r| <= |qs|
  {
    if qs == [] then []
    else (if Contains(qs[0].tallyType, filterName) then [qs[0]] else []) + Matching(qs[1..], filterName)
  }

  /** Each question printed on its own, with the base it configures. */
  function Blocks(totalVotes: int, qs: seq<Question>, markWinners: bool, showPercent: bool): seq<Line>
    requires forall q :: q in qs ==> IsKnownBase(q.answerTotalVotesPercentage)
  {
    if qs == [] then []
    else
      assert qs[0] in qs;
      assert IsKnownBase(qs[0].answerTotalVotesPercentage);
      assert OwnBase(totalVotes, qs[0]).Some?;
      QuestionBlock(totalVotes, qs[0], markWinners, showPercent, OwnBase(totalVotes, qs[0]))
      + Blocks(totalVotes, qs[1..], markWinners, showPercent)
  }

  /**
   * When every selected question names a known base, the report is the
   * selected questions' blocks in document order, each over its own base,
   * then the closing line, and nothing is raised; unselected questions
   * leave no trace.
   */
  lemma {:induction false} ReportFromWellFormed(totalVotes: int, qs: seq<Question>, markWinners: bool,
                                               showPercent: bool, filterName: string, base: Option<int>)
    requires forall q :: q in qs && Contains(q.tallyType, filterName) ==> IsKnownBase(q.answerTotalVotesPercentage)
    ensures ReportFrom(totalVotes, qs, markWinners, showPercent, filterName, base)
         == Printed(Blocks(totalVotes, Matching(qs, filterName), markWinners, showPercent) + [ClosingLine], None)
    decreases |qs|
  {
    if qs != [] {
      var q, rest := qs[0], qs[1..];
      assert forall x :: x in rest ==> x in qs;
      if Contains(q.tallyType, filterName) {
        assert q in qs;
        var b := OwnBase(totalVotes, q);
        assert b == SelectBase(q.answerTotalVotesPercentage, totalVotes, q.totals.validVotes, base);
        ReportFromWellFormed(totalVotes, rest, markWinners, showPercent, filterName, b);
        MatchedQuestion(totalVotes, qs, markWinners, showPercent, filterName, base);
      } else {
        ReportFromWellFormed(totalVotes, rest, markWinners, showPercent, filterName, base);
        assert Matching(qs, filterName) == Matching(rest, filterName);
      }
    }
  }

  /** A selected question with a known base prints its block before the rest of the report. */
  lemma MatchedQuestion(totalVotes: int, qs: seq<Question>, markWinners: bool,
                        showPercent: bool, filterName: string, base: Option<int>)
    requires qs != [] && Contains(qs[0].tallyType, filterName)
    requires IsKnownBase(qs[0].answerTotalVotesPercentage)
    requires forall q :: q in Matching(qs[1..], filterName) ==> IsKnownBase(q.answerTotalVotesPercentage)
    requires ReportFrom(totalVotes, qs[1..], markWinners, showPercent, filterName, OwnBase(totalVotes, qs[0]))
          == Printed(Blocks(totalVotes, Matching(qs[1..], filterName), markWinners, showPercent) + [ClosingLine], None)
    ensures ReportFrom(totalVotes, qs, markWinners, showPercent, filterName, base)
         == Printed(Blocks(totalVotes, Matching(qs, filterName), markWinners, showPercent) + [ClosingLine], None)
  {
    var q, m := qs[0], Matching(qs[1..], filterName);
    assert Matching(qs, filterName) == [q] + m;
    var b := OwnBase(totalVotes, q);
    assert SelectBase(q.answerTotalVotesPercentage, totalVotes, q.totals.validVotes, base) == b;
    BlocksCons(totalVotes, q, m, markWinners, showPercent);
    ReportFromStep(totalVotes, qs, markWinners, showPercent, filterName, base);
    PrependBlock(QuestionBlock(totalVotes, q, markWinners, showPercent, b),
      Blocks(totalVotes, m, markWinners, showPercent),
      ReportFrom(totalVotes, qs[1..], markWinners, showPercent, filterName, b));
  }

  lemma PrependBlock(block: seq<Line>, rest: seq<Line>, tail: Printed)
    requires tail == Printed(rest + [ClosingLine], None)
    ensures Prepend(block, tail) == Printed((block + rest) + [ClosingLine], None)
  {
  }

  lemma BlocksCons(totalVotes: int, q: Question, qs: seq<Question>, markWinners: bool, showPercent: bool)
    requires IsKnownBase(q.answerTotalVotesPercentage)
    requires forall x :: x in qs ==> IsKnownBase(x.answerTotalVotesPercentage)
    ensures forall x :: x in [q] + qs ==> IsKnownBase(x.answerTotalVotesPercentage)
    ensures Blocks(totalVotes, [q] + qs, markWinners, showPercent)
         == QuestionBlock(totalVotes, q, markWinners, showPercent, OwnBase(totalVotes, q))
            + Blocks(totalVotes, qs, markWinners, showPercent)
  {
    assert ([q] + qs)[0] == q && ([q] + qs)[1..] == qs;
  }

  /** The same for a whole document, where `base_num` starts unbound. */
  lemma ReportOfWellFormedDocument(doc: Results, markWinners: bool, showPercent: bool, filterName: string)
    requires forall q :: q in doc.questions && Contains(q.tallyType, filterName) ==>
               IsKnownBase(q.answerTotalVotesPercentage)
    ensures Report(doc, markWinners, showPercent, filterName)
         == Printed(Blocks(doc.totalVotes, Matching(doc.questions, filterName), markWinners, showPercent)
                    + [ClosingLine], None)
  {
    ReportFromWellFormed(doc.totalVotes, doc.questions, markWinners, showPercent, filterName, None);
  }
}
