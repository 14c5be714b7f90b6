# Mental-arithmetic reaction-time experiment: trial loop and scoring

The experiment shows ten addition questions, `n1 + n2 =`. Both numbers are drawn
from [0,100]. For each question it collects digit key presses until the
participant presses `return`, then scores the typed answer against the sum. It
appends the response, accuracy, correct-response echo and response time to
four parallel lists, and finally writes one header row and one row per trial.

This project models that logic as pure Dafny functions and small methods:

- `Conditions`: preparing the question and answer lists from the drawn numbers.
- `Polling`: the per-trial key-collection loop. Each poll of the keyboard is the
  next batch in a finite batch sequence.
- `Seqs`, `Keys` and `Scoring`: `list.remove("return")`, `"".join`, and the
  string comparison against `str(answer)`. `str` for naturals is in `Decimal`,
  together with its inverse.
- `Session`: one trial and the block of trials with its four result lists.
- `Output`: the rows handed to the csv writer, and the session end to end.
- `Scenarios`: concrete trials with expected answer 57.

Keys are modelled as their key names (`"0"`..`"9"`, `"return"`). The answer is
`"".join` over the key list after only the FIRST `"return"` has been removed.
So keys that arrive in the same poll after the submit key stay in the answer.
A second `"return"` in that poll is joined in literally as the text `return`.
One might expect the submit key to be dropped entirely and the answer to be
digits only. The code removes only the first `return` (experiment.py:178), so
any later one stays in the answer (`Scenarios.SecondSubmitJoinedLiterally`).
The answer is guaranteed to be digits only when the final poll holds exactly
one submit key (`Session.OneReturnGivesDigitAnswer`).

Inputs the model takes as parameters:

- the numbers drawn by `random.randint` (`Conditions.Draw`, each in [0,100]);
- the batches returned by successive `event.getKeys` polls;
- the timer reading taken when the loop ends, as an opaque `real`.

The source loops for ever when `return` never arrives. The model therefore
requires that some poll delivers it (`Polling.Terminates`).

## Model

| member | source | states |
|---|---|---|
| Polling.FirstReturnPoll | experiment.py:170-174 | the first poll that delivers `return`: it holds `return` and no earlier poll does |
| Polling.CollectKeys | experiment.py:168-176 | the loop stops after the first poll that puts `return` in the key list; the key list is the in-order concatenation of the polls up to and including that one; no earlier poll held `return` |
| Seqs.RemoveFirst | experiment.py:178 | `list.remove` fails exactly when the element is absent; otherwise the result is one element shorter and, as a multiset, is the input minus one copy of the element |
| Seqs.RemoveFirstSplit | experiment.py:178 | `list.remove` cuts out the occurrence that follows the longest prefix free of the element and keeps everything after it, later copies included |
| Scoring.ExtractAnswer | experiment.py:178-179 | extracting the answer fails (ValueError) exactly when no `return` is in the key list |
| Scoring.AnswerKeepsKeysAfterReturn | experiment.py:178-179 | the answer is the join of the keys before the first `return` followed by the join of every key after it |
| Keys.Join | experiment.py:179 | `"".join(key_list)`; it has no ensures of its own: its meaning on digit keys is stated by Keys.JoinDigitKeys and on a key list with `return` by Scoring.AnswerKeepsKeysAfterReturn |
| Keys.JoinDigitKeys | experiment.py:179 | joining digit keys yields one digit character per key, in order, and each key is the one-character string of its digit |
| Session.OneReturnGivesDigitAnswer | experiment.py:170-179 | if polls report only `0`..`9` and `return`, and the final poll holds exactly one `return`, the answer is made of digits only |
| Decimal.NatToString | experiment.py:83 | `str(n)` for a natural is non-empty, made of digits, and starts with `0` only when it is exactly "0" |
| Decimal.ParseNatToString | experiment.py:181 | reading the decimal string of `n` gives back `n` |
| Decimal.NatToStringParse | experiment.py:181 | every canonical digit string is the decimal string of the number it denotes |
| Decimal.RenderedIffCanonical | experiment.py:181 | a string is `str(n)` for some natural `n` exactly when it is canonical |
| Decimal.NatToStringInjective | experiment.py:181 | two naturals have the same decimal string exactly when they are equal |
| Scoring.Score | experiment.py:181-186 | accuracy is 1 or -1; the correct-list entry is the answer when accuracy is 1 and the sentinel -1 when it is -1 |
| Scoring.ScoreIsCanonicalMatch | experiment.py:181 | accuracy is 1 exactly when the answer is a canonical decimal whose value is the expected sum (a string comparison, with no numeric coercion) |
| Scoring.LeadingZeroScoredIncorrect | experiment.py:181-186 | an answer with a leading zero, such as "07", is scored -1 with sentinel -1 whatever the expected sum |
| Scoring.EmptyAnswerScoredIncorrect | experiment.py:178-186 | pressing only `return` gives the empty answer, which is always scored -1 |
| Conditions.QuestionText | experiment.py:83 | the question text `str(n1) + " + " + str(n2) + " ="`; it has no ensures of its own: Conditions.QuestionDeterminesDraw states that the text determines both numbers |
| Conditions.AnswerOf | experiment.py:84 | the expected answer `n1 + n2` is at most 200 when both numbers come from [0,100] |
| Conditions.PrepareConditions | experiment.py:79-84 | both lists end with 10 entries and stay index-aligned; each answer is `n1 + n2` of its own draw and lies in [0,200]; each question shows that draw |
| Conditions.SplitAtSpace | experiment.py:83 | a digit string followed by text that starts with a space can be split off in only one way |
| Conditions.QuestionDeterminesDraw | experiment.py:83-84 | two questions have the same text exactly when they come from the same pair of numbers, so the question text determines its expected answer |
| Session.RunTrial | experiment.py:162-189 | the trial's response is the answer extracted from the accumulated keys; accuracy is 1 exactly when the response equals `str(expected)`; the echo is the response or -1; the response time is the timer reading |
| Session.Record | experiment.py:182-189 | recording a trial adds exactly one entry at the end of each of the four lists and leaves every earlier entry unchanged |
| Session.RunBlock | experiment.py:155-189 | after the block the four lists have equal length, equal to the number of trials; entry `t` of every list is trial `t`'s outcome, scored against `answers[t]` |
| Output.Rows | experiment.py:207-214 | a header row followed by one well-shaped row per index of the response list |
| Output.Columns | experiment.py:211-214 | data rows read back into four aligned lists with one entry per row; reading fails exactly when some row is not shaped like a written one |
| Output.RowsRoundTrip | experiment.py:207-214 | reading the data rows back gives exactly the four result lists, in order (fields: response, accuracy, correct, time) |
| Output.RunExperiment | experiment.py:79-214 | the session writes 11 rows: a header, then one row per trial. Each row's response is the answer extracted from that trial's keys, with accuracy 1 exactly when it is the decimal string of that question's sum. The correct cell echoes the response or holds -1, and the last cell is that trial's timer reading |
| Scenarios.TypedSumScoredCorrect | experiment.py:168-186 | the keys 5, 7 and return, in three polls, answer "57", which is scored 1 against 57 and echoed |
| Scenarios.WrongSumScoredIncorrect | experiment.py:181-186 | "58" against 57 is scored -1 with sentinel -1 |
| Scenarios.KeysAfterSubmitSpoilAnswer | experiment.py:170-186 | 5, 7, return, 3 in one poll answer "573", which 57 does not match |
| Scenarios.SecondSubmitJoinedLiterally | experiment.py:178-179 | a second `return` in the key list is not removed and appears as the text `return` in the answer |

## Left out

- The participant dialog, monitor, window, text stimuli, screen flips and start/block messages (experiment.py:33-46, 106-124, 133-149, 157-166, 200): these are UI calls into PsychoPy.
- The block loop (experiment.py:145-149): `blocks` is 1, so the model runs a single block. The only other thing the loop does is show a message and wait for a key.
- `event.waitKeys` and the blocking of `event.getKeys`: a poll is the next element of a finite batch sequence. The model does not run a trial whose polls never deliver `return`, because the source would never end such a trial.
- `core.Clock` (experiment.py:127, 162, 176): the response time is an opaque `real`. The model states only that the timer reading is recorded once per trial. It does not state that latencies are non-negative, because that is a property of the clock and not of this code.
- `random.randint`: the drawn numbers are parameters, constrained to [0,100].
- Paths, `datetime`, the participant file name and `print` calls (experiment.py:19-25, 48-52): these are environment and I/O plumbing with no effect on the trial logic.
- Opening the file and `csv.writer` formatting (experiment.py:203-205): the model produces the list of rows handed to the writer, not the text of the file.
