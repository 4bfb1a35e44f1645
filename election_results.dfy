/**
 * The results document the formatter reads: what the external tally
 * produces for one election, reduced to the fields the formatter uses.
 * Every entity is a value; the formatter never updates any of them.
 */
module ElectionResults {

  datatype Option<+T> = None | Some(value: T)

  /** One answer of a question; `winnerPosition` is None for a non-elected answer. */
  datatype Answer = Answer(text: string, totalCount: int, winnerPosition: Option<int>)

  datatype Totals = Totals(validVotes: int, blankVotes: int, nullVotes: int)

  /**
   * One question. `answerTotalVotesPercentage` is the configured percentage
   * base; the documents carry "over-total-votes" or "over-total-valid-votes",
   * but the field is a free string and the formatter does not check it.
   */
  datatype Question = Question(
    title: string,
    tallyType: string,
    answerTotalVotesPercentage: string,
    totals: Totals,
    answers: seq<Answer>)

  datatype Results = Results(totalVotes: int, questions: seq<Question>)

  /** One element of the data list; the formatter reads only its `results`. */
  datatype ElectionData = ElectionData(results: Results)

  const OverTotalVotes: string := "over-total-votes"
  const OverTotalValidVotes: string := "over-total-valid-votes"

  /** An answer is elected exactly when it carries a winner position. */
  predicate IsWinner(a: Answer) {
    a.winnerPosition.Some?
  }

  /** The two percentage bases the formatter recognises. */
  predicate IsKnownBase(percentBase: string) {
    percentBase == OverTotalVotes || percentBase == OverTotalValidVotes
  }
}
