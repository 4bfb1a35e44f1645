/**
 * The plurality-at-large results formatter. It walks the questions of a
 * results document, skips those whose tally type does not contain the
 * filter string, and for each remaining one prints a title, a summary of
 * total, blank, null and valid votes, and the answers in display order.
 * Each printed line is modelled as a `Line` value; the report is the
 * sequence of lines, plus the exception that cut it short, if any.
 */
module PrettyPrint {
  import opened ElectionResults
  import opened AnswerOrder
  import opened Text

  /** The label in front of an answer line: its position, or "N" for a non-elected answer. */
  datatype Rank = Numbered(position: int) | NotElected

  /** One printed line. Percentages are exact; the "%0.2f" rounding is not modelled. */
  datatype Line =
    | QuestionTitle(title: string)                 // "Q: <title>"
    | TotalVotesLine(votes: int)                   // "Total votes: <n>"
    | BlankVotesLine(votes: int, percent: real)    // "Blank votes: <n> (<p>%)"
    | NullVotesLine(votes: int, percent: real)     // "Null votes: <n> (<p>%)"
    | ValidVotesLine(votes: int, percent: real)    // "Total valid votes (votes to options): <n> (<p>%)"
    | OptionsHeader(percentBase: string)           // "Options (percentages over <base>):"
    | AnswerLine(rank: Rank, text: string, votes: int, shown: Option<real>)
                                                   // "<rank>. <text> (<n> votes[, <p>%])"
    | ClosingLine                                  // the final empty line

  /** Exceptions the formatter can raise on a well-typed document. */
  datatype Error =
    | NoElectionData        // `data_list[0]` on an empty list (IndexError)
    | PercentBaseUnbound    // `base_num` read before any assignment (UnboundLocalError)

  /** What a call printed, and the exception that ended it (None when it returned normally). */
  datatype Printed = Printed(lines: seq<Line>, error: Option<Error>)

  function Prepend(pre: seq<Line>, p: Printed): Printed {
    Printed(pre + p.lines, p.error)
  }

  /** `num` as a percentage of `base`; zero when the base is zero. */
  function Percentage(num: int, base: int): (r: real)
    ensures base == 0 ==> r == 0.0
    ensures base != 0 ==> r * (base as real) == (num as real) * 100.0
  {
    if base == 0 then 0.0 else (num as real) * 100.0 / (base as real)
  }

  /**
   * The value of `base_num` after a question's base selection: the
   * document's total votes, the question's valid votes, or, for any other
   * configured base, whatever an earlier question left there.
   */
  function SelectBase(percentBase: string, totalVotes: int, validVotes: int, current: Option<int>): (r: Option<int>)
    ensures IsKnownBase(percentBase) ==> r.Some?
    ensures !IsKnownBase(percentBase) ==> r == current
  {
    if percentBase == OverTotalVotes then Some(totalVotes)
    else if percentBase == OverTotalValidVotes then Some(validVotes)
    else current
  }

  /** The title and summary lines of a question; the percentages are over the document's total votes. */
  function QuestionHeader(totalVotes: int, q: Question): (r: seq<Line>)
    ensures |r| == 6
  {
    var t := q.totals;
    [ QuestionTitle(q.title),
      TotalVotesLine(totalVotes),
      BlankVotesLine(t.blankVotes, Percentage(t.blankVotes, totalVotes)),
      NullVotesLine(t.blankVotes, Percentage(t.nullVotes, totalVotes)),
      ValidVotesLine(t.validVotes, Percentage(t.validVotes, totalVotes)),
      OptionsHeader(q.answerTotalVotesPercentage) ]
  }

  /** The line for one answer; the percentage base is read only when percentages are shown. */
  function RenderAnswer(rank: Rank, a: Answer, showPercent: bool, base: Option<int>): (r: Line)
    requires showPercent ==> base.Some?
    ensures r.AnswerLine? && r.rank == rank && r.text == a.text && r.votes == a.totalCount
    ensures r.shown.Some? <==> showPercent
  {
    AnswerLine(rank, a.text, a.totalCount,
      if showPercent then Some(Percentage(a.totalCount, base.value)) else None)
  }

  /** Winners in list order then losers by count, or all answers by count. */
  function DisplayOrder(answers: seq<Answer>, markWinners: bool): (r: seq<Answer>)
    ensures |r| == |answers|
  {
    PartitionLength(answers);
    if markWinners then Winners(answers) + SortDesc(Losers(answers)) else SortDesc(answers)
  }

  /** How many leading lines of the display order carry a number. */
  function NumberedCount(answers: seq<Answer>, markWinners: bool): nat {
    if markWinners then |Winners(answers)| else |answers|
  }

  /** The answer lines of a question, in display order. */
  function AnswerSection(answers: seq<Answer>, markWinners: bool, showPercent: bool, base: Option<int>): (r: seq<Line>)
    requires showPercent && |answers| > 0 ==> base.Some?
    ensures |r| == |answers|
  {
    var order := DisplayOrder(answers, markWinners);
    var numbered := NumberedCount(answers, markWinners);
    seq(|order|, k requires 0 <= k < |order| =>
      RenderAnswer(if k < numbered then Numbered(k + 1) else NotElected, order[k], showPercent, base))
  }

  /** Everything a printed question shows: its title and summary, then its answer lines. */
  function QuestionBlock(totalVotes: int, q: Question, markWinners: bool, showPercent: bool, base: Option<int>): seq<Line>
    requires showPercent && |q.answers| > 0 ==> base.Some?
  {
    QuestionHeader(totalVotes, q) + AnswerSection(q.answers, markWinners, showPercent, base)
  }

  /**
   * The report printed from the questions `qs` on, when `base_num` holds
   * `base`. It stops at the first answer line that needs an unbound base.
   */
  function ReportFrom(totalVotes: int, qs: seq<Question>, markWinners: bool, showPercent: bool,
                      filterName: string, base: Option<int>): (r: Printed)
    ensures r.error.None? ==> r.lines != [] && r.lines[|r.lines| - 1] == ClosingLine
    ensures r.error != Some(NoElectionData)
    decreases |qs|
  {
    if qs == [] then Printed([ClosingLine], None)
    else if !Contains(qs[0].tallyType, filterName) then
      ReportFrom(totalVotes, qs[1..], markWinners, showPercent, filterName, base)
    else
      var q := qs[0];
      var b := SelectBase(q.answerTotalVotesPercentage, totalVotes, q.totals.validVotes, base);
      var header := QuestionHeader(totalVotes, q);
      if showPercent && b.None? && |q.answers| > 0 then
        Printed(header, Some(PercentBaseUnbound))
      else
        Prepend(QuestionBlock(totalVotes, q, markWinners, showPercent, b),
          ReportFrom(totalVotes, qs[1..], markWinners, showPercent, filterName, b))
  }

  /** One question's worth of the report: skipped, cut short, or printed before the rest. */
  lemma ReportFromStep(totalVotes: int, qs: seq<Question>, markWinners: bool, showPercent: bool,
                       filterName: string, base: Option<int>)
    requires qs != []
    ensures var q := qs[0];
            var b := SelectBase(q.answerTotalVotesPercentage, totalVotes, q.totals.validVotes, base);
            ReportFrom(totalVotes, qs, markWinners, showPercent, filterName, base)
            == if !Contains(q.tallyType, filterName) then
                 ReportFrom(totalVotes, qs[1..], markWinners, showPercent, filterName, base)
               else if showPercent && b.None? && |q.answers| > 0 then
                 Printed(QuestionHeader(totalVotes, q), Some(PercentBaseUnbound))
               else
                 Prepend(QuestionBlock(totalVotes, q, markWinners, showPercent, b),
                   ReportFrom(totalVotes, qs[1..], markWinners, showPercent, filterName, b))
  {
  }

  /** The report for a whole document; `base_num` starts unbound. */
  function Report(doc: Results, markWinners: bool, showPercent: bool, filterName: string): (r: Printed)
    ensures r.error.None? ==> r.lines != [] && r.lines[|r.lines| - 1] == ClosingLine
    ensures r.error != Some(NoElectionData)
  {
    ReportFrom(doc.totalVotes, doc.questions, markWinners, showPercent, filterName, None)
  }

  /**
   * Lines 69-100: the winners in list order, numbered from 1 by a running
   * counter, then the losers by count, each labelled "N". `raised` reports
   * the UnboundLocalError of the first line that needs an unbound base.
   */
  method PrintMarkedAnswers(answers: seq<Answer>, showPercent: bool, baseNum: Option<int>)
    returns (section: seq<Line>, raised: bool)
    ensures raised <==> showPercent && baseNum.None? && |answers| > 0
    ensures raised ==> section == []
    ensures !raised ==> section == AnswerSection(answers, true, showPercent, baseNum)
  {
    section := [];
    var i := 1;
    var winners := Winners(answers);
    PartitionLength(answers);
    for j := 0 to |winners|
      invariant i == j + 1
      invariant showPercent && baseNum.None? ==> j == 0
      invariant |section| == j
      invariant forall k :: 0 <= k < j ==>
        section[k] == RenderAnswer(Numbered(k + 1), winners[k], showPercent, baseNum)
    {
      var answer := winners[j];
      if !showPercent {
        section := section + [AnswerLine(Numbered(i), answer.text, answer.totalCount, None)];
      } else {
        if baseNum.None? {
          return [], true;
        }
        section := section + [AnswerLine(Numbered(i), answer.text, answer.totalCount,
          Some(Percentage(answer.totalCount, baseNum.value)))];
      }
      i := i + 1;
    }

    var losers := SortDesc(Losers(answers));
    var loserLines := [];
    for j := 0 to |losers|
      invariant showPercent && baseNum.None? ==> |winners| == 0 && j == 0
      invariant |loserLines| == j
      invariant forall k :: 0 <= k < j ==>
        loserLines[k] == RenderAnswer(NotElected, losers[k], showPercent, baseNum)
    {
      var loser := losers[j];
      if !showPercent {
        loserLines := loserLines + [AnswerLine(NotElected, loser.text, loser.totalCount, None)];
      } else {
        if baseNum.None? {
          return [], true;
        }
        loserLines := loserLines + [AnswerLine(NotElected, loser.text, loser.totalCount,
          Some(Percentage(loser.totalCount, baseNum.value)))];
      }
    }
    MarkedLinesAssemble(answers, showPercent, baseNum, section, loserLines);
    section := section + loserLines;
    raised := false;
  }

  /** Numbered winner lines followed by "N" loser lines make up the marked answer section. */
  lemma MarkedLinesAssemble(answers: seq<Answer>, showPercent: bool, baseNum: Option<int>,
                            winnerLines: seq<Line>, loserLines: seq<Line>)
    requires |winnerLines| == |Winners(answers)| && |loserLines| == |SortDesc(Losers(answers))|
    requires |winnerLines| + |loserLines| == |answers|
    requires showPercent && |answers| > 0 ==> baseNum.Some?
    requires forall k :: 0 <= k < |winnerLines| ==>
      winnerLines[k] == RenderAnswer(Numbered(k + 1), Winners(answers)[k], showPercent, baseNum)
    requires forall k :: 0 <= k < |loserLines| ==>
      loserLines[k] == RenderAnswer(NotElected, SortDesc(Losers(answers))[k], showPercent, baseNum)
    ensures winnerLines + loserLines == AnswerSection(answers, true, showPercent, baseNum)
  {
    var section := winnerLines + loserLines;
    var expected := AnswerSection(answers, true, showPercent, baseNum);
    assert |section| == |expected|;
    forall k | 0 <= k < |section| ensures section[k] == expected[k] {
      if k >= |winnerLines| {
        assert section[k] == loserLines[k - |winnerLines|];
      }
    }
  }

  /** Lines 101-114: all answers by count, numbered 1..n. */
  method PrintRankedAnswers(answers: seq<Answer>, showPercent: bool, baseNum: Option<int>)
    returns (section: seq<Line>, raised: bool)
    ensures raised <==> showPercent && baseNum.None? && |answers| > 0
    ensures raised ==> section == []
    ensures !raised ==> section == AnswerSection(answers, false, showPercent, baseNum)
  {
    section := [];
    var sorted := SortDesc(answers);
    for i := 0 to |sorted|
      invariant showPercent && baseNum.None? ==> i == 0
      invariant |section| == i
      invariant forall k :: 0 <= k < i ==>
        section[k] == RenderAnswer(Numbered(k + 1), sorted[k], showPercent, baseNum)
    {
      var answer := sorted[i];
      if !showPercent {
        section := section + [AnswerLine(Numbered(i + 1), answer.text, answer.totalCount, None)];
      } else {
        if baseNum.None? {
          return [], true;
        }
        section := section + [AnswerLine(Numbered(i + 1), answer.text, answer.totalCount,
          Some(Percentage(answer.totalCount, baseNum.value)))];
      }
    }
    raised := false;
    ghost var expected := AnswerSection(answers, false, showPercent, baseNum);
    assert |section| == |expected|;
    assert forall k | 0 <= k < |section| :: section[k] == expected[k];
  }

  /**
   * Lines 41-114, the body of the question loop for a question that passed
   * the filter: print the title, select the percentage base (line 45-49,
   * updating `base_num`), print the summary and then the answers.
   */
  method PrintQuestion(totalVotes: int, question: Question, markWinners: bool, showPercent: bool,
                       baseNum: Option<int>)
    returns (out: seq<Line>, newBase: Option<int>, raised: bool)
    ensures newBase == SelectBase(question.answerTotalVotesPercentage, totalVotes, question.totals.validVotes, baseNum)
    ensures raised <==> showPercent && newBase.None? && |question.answers| > 0
    ensures raised ==> out == QuestionHeader(totalVotes, question)
    ensures !raised ==> out == QuestionHeader(totalVotes, question)
                             + AnswerSection(question.answers, markWinners, showPercent, newBase)
  {
    out := [QuestionTitle(question.title)];

    newBase := baseNum;
    var percentBase := question.answerTotalVotesPercentage;
    if percentBase == OverTotalVotes {
      newBase := Some(totalVotes);
    } else if percentBase == OverTotalValidVotes {
      newBase := Some(question.totals.validVotes);
    }

    var blankVotes := question.totals.blankVotes;
    var nullVotes := question.totals.nullVotes;
    var validVotes := question.totals.validVotes;
    out := out + [TotalVotesLine(totalVotes)];
    out := out + [BlankVotesLine(blankVotes, Percentage(blankVotes, totalVotes))];
    out := out + [NullVotesLine(blankVotes, Percentage(nullVotes, totalVotes))];
    out := out + [ValidVotesLine(validVotes, Percentage(validVotes, totalVotes))];
    out := out + [OptionsHeader(percentBase)];

    var section;
    if markWinners {
      section, raised := PrintMarkedAnswers(question.answers, showPercent, newBase);
    } else {
      section, raised := PrintRankedAnswers(question.answers, showPercent, newBase);
    }
    out := out + section;
  }

  /**
   * The formatter (`__pretty_print_base`): for each question whose tally
   * type contains `filterName`, in document order, print its lines; the
   * percentage base carries over from one printed question to the next.
   */
  method PrettyPrintBase(data: ElectionData, markWinners: bool, showPercent: bool, filterName: string)
    returns (lines: seq<Line>, error: Option<Error>)
    ensures Printed(lines, error) == Report(data.results, markWinners, showPercent, filterName)
  {
    var counts := data.results.questions;
    var baseNum: Option<int> := None;
    lines := [];
    var qi := 0;
    while qi < |counts|
      invariant 0 <= qi <= |counts|
      invariant Report(data.results, markWinners, showPercent, filterName)
        == Prepend(lines, ReportFrom(data.results.totalVotes, counts[qi..], markWinners, showPercent, filterName, baseNum))
    {
      var question := counts[qi];
      ReportFromStep(data.results.totalVotes, counts[qi..], markWinners, showPercent, filterName, baseNum);
      assert counts[qi..][0] == question && counts[qi..][1..] == counts[qi + 1..];
      if !Contains(question.tallyType, filterName) {
        qi := qi + 1;
        continue;
      }
      var out, raised;
      out, baseNum, raised := PrintQuestion(data.results.totalVotes, question, markWinners, showPercent, baseNum);
      lines := lines + out;
      if raised {
        error := Some(PercentBaseUnbound);
        return;
      }
      qi := qi + 1;
    }
    assert counts[qi..] == [];
    lines := lines + [ClosingLine];
    error := None;
  }

  /** `pretty_print_plurality_at_large`: the formatter on the first data element, with percentages. */
  method PrettyPrintPluralityAtLarge(dataList: seq<ElectionData>, markWinners: bool := true)
    returns (lines: seq<Line>, error: Option<Error>)
    ensures dataList == [] ==> lines == [] && error == Some(NoElectionData)
    ensures dataList != [] ==>
      Printed(lines, error) == Report(dataList[0].results, markWinners, true, "plurality-at-large")
  {
    if |dataList| == 0 {
      return [], Some(NoElectionData);
    }
    var data := dataList[0];
    lines, error := PrettyPrintBase(data, markWinners, true, "plurality-at-large");
  }
}
