# Plurality-at-large results formatter, modelled in Dafny

This project models the text formatter of agora-results
(`agora_results/pipes/pretty_print.py`). The formatter reads a results
document produced by an external tally. That document holds the total vote
count and a list of questions. Each question has a title, a tally type, a
configured percentage base, blank/null/valid totals, and answers with vote
counts and optional winner positions.

For every question whose tally type contains a filter string, in document
order, the formatter prints:

- a title;
- a summary of total, blank, null and valid votes, with percentages over the
  document's total votes;
- the answers in display order.

With winner marking, the elected answers come first, numbered 1..k in their
list order. The other answers follow by non-increasing vote count, each
labelled `N`. Without winner marking, all answers are shown by non-increasing
count and numbered 1..n. The count sort is Python's stable `sorted`.
`pretty_print_plurality_at_large` applies the formatter to the first element of
its data list. It uses the filter `"plurality-at-large"` and shows
percentages.

The modules are:

- `ElectionResults` (`election_results.dfy`): the document schema as
  datatypes.
- `Text` (`text.dfy`): the substring test behind `filter_name in tally_type`,
  proved equal to "occurs at some position".
- `AnswerOrder` (`answer_order.dfy`): the split into winners and losers, and
  the stable descending sort. The sort is an insertion sort (`SortDesc`).
  Stability is stated as "every count group keeps its list order". A
  uniqueness lemma shows that `SortDesc` is the only count-sorted sequence
  with the input's count groups.
- `PrettyPrint` (`pretty_print.dfy`):
  - Each printed line is a `Line` value.
  - The report is a sequence of lines plus the exception that ended it, if
    any.
  - `Report`/`ReportFrom` are the reference definitions of the report.
  - The imperative methods `PrintMarkedAnswers`, `PrintRankedAnswers`,
    `PrintQuestion`, `PrettyPrintBase` and `PrettyPrintPluralityAtLarge`
    follow the source's loops. Each is proved to produce exactly what the
    reference definitions describe.
- `ReportProperties` (`report_properties.dfy`): what the report promises.
  This covers percentage range, the summary lines, orderings and labels, the
  percentage base, and which questions appear.
- `ReportExamples` (`report_examples.dfy`): concrete reports worked out from
  the definitions. They include the documented 100-vote example and the
  stale and unbound percentage-base cases.

The percentage base is modelled as the program has it: `base_num` is a
function-level variable that only the two known base strings assign.

- A question with any other base string reuses the base of the last printed
  question that set one.
- If no question has set it yet, the first answer line that needs a
  percentage raises `UnboundLocalError`. Lines printed before that point stay
  in the output. The model reports this as `PercentBaseUnbound`.
- `pretty_print_plurality_at_large` on an empty data list raises `IndexError`
  before printing anything. This is `NoElectionData`.

The formatter never changes its input: the comprehensions and `sorted` build
new lists. In the model every entity is an immutable value, and no method
has a `modifies` clause. So the document is the same after every call.

Where the documented intent and the code differ, the model follows the code:

- Winners are printed in their list order. `winner_position` is never used
  to sort them (lines 71-85). The intended behaviour sorts them by position;
  `WinnerPositionIgnoredExample` shows one case.
- The "Null votes" line prints the blank-vote count, with the null-vote
  percentage (lines 60-62).
- The configured base is a free string, not an enumeration. Other values
  give the stale or unbound base described above (lines 45-49).
- A question with a missing field is not skipped on its own. The code has no
  exception handler, so a `KeyError` would end the whole report. The model's
  typed schema has no missing fields.

## Model

| member | source | states |
|---|---|---|
| PrettyPrint.Percentage | agora_results/pipes/pretty_print.py:31-35 | zero when the base is zero; otherwise the result times the base equals the count times 100 |
| ReportProperties.PercentageInRange | agora_results/pipes/pretty_print.py:31-35 | a count between 0 and a positive base is between 0% and 100% of it |
| Text.Contains | agora_results/pipes/pretty_print.py:39-40 | true exactly when the filter string occurs at some position of the tally type |
| ReportProperties.Matching | agora_results/pipes/pretty_print.py:38-40 | the selected questions are exactly those whose tally type contains the filter, never more than the document has |
| AnswerOrder.SelectMembers | agora_results/pipes/pretty_print.py:71-72 | the winners are exactly the answers with a winner position, the losers exactly those without |
| AnswerOrder.SelectAppend | agora_results/pipes/pretty_print.py:87-88 | the split keeps list order: it distributes over concatenation |
| AnswerOrder.PartitionIsPermutation | agora_results/pipes/pretty_print.py:71-88 | winners and losers together hold every answer exactly as often as the question does |
| AnswerOrder.PartitionLength | agora_results/pipes/pretty_print.py:71-88 | every answer is on exactly one side, so the two sides' lengths add up to the answer count |
| AnswerOrder.SortDescIsStableSort | agora_results/pipes/pretty_print.py:87-89 | the sorted answers have non-increasing counts, keep each count group in list order, and are a permutation of the input |
| AnswerOrder.StableOrderIsUnique | agora_results/pipes/pretty_print.py:102-103 | two count-sorted sequences with the same count groups are equal |
| AnswerOrder.SortDescCharacterization | agora_results/pipes/pretty_print.py:102-103 | a sequence is the stable descending sort of the answers if and only if it is count-sorted and has their count groups |
| PrettyPrint.SelectBase | agora_results/pipes/pretty_print.py:45-49 | the value of `base_num` after a question: total votes for "over-total-votes", the question's valid votes for "over-total-valid-votes", otherwise the value held before; its contract states that a known base always sets it and any other string leaves it unchanged |
| PrettyPrint.QuestionHeader | agora_results/pipes/pretty_print.py:41-67 | the six lines printed before the answers: title, total votes, blank, null (with the blank-vote count and the null-vote percentage), valid votes with percentages over total votes, and the options header; its contract gives the six lines, `SummaryLines` their contents |
| PrettyPrint.RenderAnswer | agora_results/pipes/pretty_print.py:73-84 | one answer line: its label, text and vote count, with a percentage over the current base exactly when percentages are shown |
| AnswerOrder.Select | agora_results/pipes/pretty_print.py:71-72 | the answers whose elected status is the given one, in list order; never longer than the list |
| AnswerOrder.Winners | agora_results/pipes/pretty_print.py:71-72 | the comprehension of answers with `winner_position != None`, in list order |
| AnswerOrder.Losers | agora_results/pipes/pretty_print.py:87-88 | the comprehension of answers with `winner_position == None`, in list order |
| AnswerOrder.Insert | agora_results/pipes/pretty_print.py:89 | places one answer before the first answer it does not trail in a count-sorted list, so it precedes its ties; it adds exactly one element |
| AnswerOrder.SortDesc | agora_results/pipes/pretty_print.py:102-103 | `sorted(..., key=total_count, reverse=True)` as an insertion sort; keeps the length; `SortDescIsStableSort` and `SortDescCharacterization` state what it is |
| PrettyPrint.DisplayOrder | agora_results/pipes/pretty_print.py:69-103 | the order the answers are printed in: winners then count-sorted losers when marking winners, all answers count-sorted otherwise; as long as the answer list |
| PrettyPrint.AnswerSection | agora_results/pipes/pretty_print.py:69-114 | the answer lines in display order: the first k numbered 1..k (k the number of winners when marking, all answers otherwise), the rest labelled "N"; one line per answer |
| PrettyPrint.ReportFrom | agora_results/pipes/pretty_print.py:38-115 | the output of the question loop from a given question on, with `base_num` carried along: unmatched questions skipped, a question that reads an unbound base cut short after its header, all else printed, then the final empty line; a report that returns normally ends with that line, and the only exception it raises is the unbound base |
| PrettyPrint.Report | agora_results/pipes/pretty_print.py:37-115 | the whole report of a document, with `base_num` unbound at the start; same contract as `ReportFrom` |
| PrettyPrint.PrintMarkedAnswers | agora_results/pipes/pretty_print.py:69-100 | the printed answer lines are the marked section (winners numbered by the running counter, then "N" losers by count); raises exactly when a percentage needs an unbound base and there is an answer |
| PrettyPrint.PrintRankedAnswers | agora_results/pipes/pretty_print.py:101-114 | the printed lines are the ranked section (all answers by count, numbered 1..n); raises under the same condition |
| PrettyPrint.PrintQuestion | agora_results/pipes/pretty_print.py:41-114 | the new base is the selected one, and the lines are the question's header followed by its answer section unless it raised |
| PrettyPrint.PrettyPrintBase | agora_results/pipes/pretty_print.py:37-115 | the lines printed and the exception raised are exactly the report of the document |
| PrettyPrint.PrettyPrintPluralityAtLarge | agora_results/pipes/pretty_print.py:117-120 | an empty data list raises before anything is printed; otherwise the output is the report of the first element, with the plurality-at-large filter and percentages shown |
| ReportProperties.SummaryLines | agora_results/pipes/pretty_print.py:51-67 | six lines: title, total votes, blank/null/valid lines whose percentages are over the document's total votes whatever the configured base, the null line showing the blank-vote count, and the options header |
| ReportProperties.SummaryPercentagesSum | agora_results/pipes/pretty_print.py:55-66 | when blank, null and valid votes add up to a positive total, the three summary percentages add up to 100 |
| ReportProperties.WinnersFirst | agora_results/pipes/pretty_print.py:69-100 | in the marked order the first k answers are exactly the winners and the rest is count-sorted |
| ReportProperties.MarkedOrder | agora_results/pipes/pretty_print.py:69-100 | the marked order is a permutation of the answers: the winners in list order first, then the losers count-sorted with their count groups kept |
| ReportProperties.MarkedSection | agora_results/pipes/pretty_print.py:69-100 | line k shows the k-th answer of the marked order, numbered k+1 if it is a winner and "N" otherwise |
| ReportProperties.RankedOrder | agora_results/pipes/pretty_print.py:101-103 | the unmarked order is a count-sorted permutation that keeps each count group in list order |
| ReportProperties.RankedSection | agora_results/pipes/pretty_print.py:101-114 | without marking, line k shows the k-th answer numbered k+1, and the printed counts never increase |
| ReportProperties.AnswerPercentBase | agora_results/pipes/pretty_print.py:45-49 | with a known base, every answer line shows its count as a percentage of total votes or of the question's valid votes, as configured |
| ReportProperties.ReportFromWellFormed | agora_results/pipes/pretty_print.py:37-115 | when every matching question names a known base, the report is the matching questions' blocks in order, each over its own base, then the closing line, and nothing is raised |
| ReportProperties.ReportOfWellFormedDocument | agora_results/pipes/pretty_print.py:37-115 | the same for a whole document, starting with no base |
| ReportExamples.MarkedOrderExample | agora_results/pipes/pretty_print.py:69-100 | winners A and B numbered 1 and 2, then losers D (9 votes) and C (5 votes) labelled N |
| ReportExamples.WinnerPositionIgnoredExample | agora_results/pipes/pretty_print.py:71-85 | a winner listed before a better-placed winner gets number 1 |
| ReportExamples.StableTiesExample | agora_results/pipes/pretty_print.py:102-114 | equal counts keep their list order when winners are not marked |
| ReportExamples.EndToEndExample | agora_results/pipes/pretty_print.py:37-115 | the 100-vote document prints "1. A" with 60% and "N. B" with 30%, the summary 5%, 5%, 90%, and then the closing line |
| ReportExamples.SkippedQuestionExample | agora_results/pipes/pretty_print.py:38-40 | a "borda" question leaves only the closing line |
| ReportExamples.StaleBaseExample | agora_results/pipes/pretty_print.py:45-49 | a question with an unknown base reuses the previous question's valid-vote base |
| ReportExamples.UnboundBaseExample | agora_results/pipes/pretty_print.py:45-84 | with no base ever set, the report stops after the question's summary with the unbound-base error |

## Left out

- `pretty_print_stv_winners` (lines 6-23) is not modelled. On the first question whose tally type contains "stv" it raises `NameError`, because `itemgetter` is never imported (line 17). On any other document it prints only the unformatted "Total votes: %d" string and the count (line 9) and skips every question. It has no logic beyond that.
- `agora_results/pipes/results.py` is not part of this model. It reads and writes JSON files and calls the external tally library, and has no logic of its own.
- Print formatting is not modelled: the exact text of each line, the blank lines around titles and the options header, and `%0.2f` rounding. Lines are values that carry the printed figures.
- Percentage: computed as an exact real, not as a Python float. `get_percentage` returns the integer 0 for a zero base; the model returns 0.0.
- SortDesc: compares the integer counts exactly. The source sorts on `float(total_count)`, which would merge distinct counts above 2^53.
- A missing or mistyped field (a `KeyError` or `TypeError` in the source) is not modelled; the schema is typed.
- The unused `os` and `subprocess` imports (lines 3-4) and the loop index `i` from `zip` (line 38) have no effect and are not modelled.
