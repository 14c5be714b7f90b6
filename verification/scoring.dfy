/** Turning the accumulated key list into an answer and scoring it
    (experiment.py:178-186). */
module Scoring {
  import opened Wrappers
  import opened Seqs
  import opened Decimal
  import opened Keys

  /** A value stored in a result list or written to an output cell: the
      correct-response list holds either the answer string or the integer -1. */
  datatype Value = Text(text: string) | Num(num: int) | Seconds(secs: real)

  /** Accuracy flags and the sentinel stored for an incorrect answer. */
  const Correct: int := 1
  const Incorrect: int := -1

  /** `key_list.remove("return")` followed by `"".join(key_list)`; `None` is
      the ValueError `remove` raises when no submit key is present. */
  function ExtractAnswer(keyList: seq<Key>): (r: Option<string>)
    ensures r.None? <==> Return !in keyList
  {
    match RemoveFirst(keyList, Return)
    case None => None
    case Some(rest) => Some(Join(rest))
  }

  /** Only the first submit key is dropped: the answer is the keys before it
      followed by every key after it, later submit keys included. */
  lemma AnswerKeepsKeysAfterReturn(pre: seq<Key>, post: seq<Key>)
    requires Return !in pre
    ensures ExtractAnswer(pre + [Return] + post) == Some(Join(pre) + Join(post))
  {
    RemoveFirstSplit(pre, Return, post);
    ConcatAppend(pre, post);
  }

  /** The outcome of comparing one answer with the expected sum. */
  datatype Verdict = Verdict(accuracy: int, correct: Value)

  /** `answer == str(expected)`: accuracy 1 and the answer echoed into the
      correct-response list, or accuracy -1 and the sentinel -1. */
  function Score(answer: string, expected: nat): (v: Verdict)
    ensures v.accuracy == Correct || v.accuracy == Incorrect
    ensures v.accuracy == Correct ==> v.correct == Text(answer)
    ensures v.accuracy == Incorrect ==> v.correct == Num(Incorrect)
  {
    if answer == NatToString(expected) then Verdict(Correct, Text(answer))
    else Verdict(Incorrect, Num(Incorrect))
  }

  /** Scoring is a comparison of strings, not of numbers: an answer is correct
      exactly when it is a canonical decimal (digits only, no leading zero)
      whose value is the expected sum. */
  lemma ScoreIsCanonicalMatch(answer: string, expected: nat)
    ensures Score(answer, expected).accuracy == Correct
        <==> Canonical(answer) && ParseDecimal(answer) == expected
  {
    ParseNatToString(expected);
    if Canonical(answer) && ParseDecimal(answer) == expected {
      NatToStringParse(answer);
    }
  }

  /** A leading zero is never normalised away: "07" does not match 7. */
  lemma LeadingZeroScoredIncorrect(answer: string, expected: nat)
    requires |answer| > 1 && answer[0] == '0'
    ensures Score(answer, expected).accuracy == Incorrect
    ensures Score(answer, expected).correct == Num(Incorrect)
  {
    ScoreIsCanonicalMatch(answer, expected);
  }

  /** Pressing only the submit key gives the empty answer, which no sum matches. */
  lemma EmptyAnswerScoredIncorrect(expected: nat)
    ensures ExtractAnswer([Return]) == Some("")
    ensures Score("", expected).accuracy == Incorrect
  {
    AnswerKeepsKeysAfterReturn([], []);
    assert [] + [Return] + [] == [Return];
  }
}
