/** One block of trials (experiment.py:155-189): each trial collects keys,
    extracts and scores the answer, and appends one entry to each of the four
    result lists. */
module Session {
  import opened Wrappers
  import opened Seqs
  import opened Decimal
  import opened Keys
  import opened Polling
  import opened Scoring

  /** `trials` in the source: the number of trials per block. */
  const Trials: nat := 10

  /** What the keyboard and the clock deliver during one trial: the batches
      successive polls return, and the timer reading taken when the loop ends. */
  datatype TrialInput = TrialInput(polls: seq<Batch>, endTime: real)

  /** The four values one trial appends to the result lists. */
  datatype TrialOutcome = TrialOutcome(response: string, accuracy: int, correct: Value, responseTime: real)

  /** One trial, from the display of the question to the scoring of the answer. */
  method RunTrial(expected: nat, input: TrialInput) returns (o: TrialOutcome)
    requires Terminates(input.polls)
    ensures ExtractAnswer(Accumulated(input.polls)) == Some(o.response)
    ensures o.accuracy == Correct || o.accuracy == Incorrect
    ensures o.accuracy == Correct <==> o.response == NatToString(expected)
    ensures o.correct == (if o.accuracy == Correct then Text(o.response) else Num(Incorrect))
    ensures o.responseTime == input.endTime
  {
    var keyList, _ := CollectKeys(input.polls);
    var endTimer := input.endTime;
    match ExtractAnswer(keyList)
    case Some(answer) =>
      var v := Score(answer, expected);
      o := TrialOutcome(answer, v.accuracy, v.correct, endTimer);
  }

  /** A batch with a single submit key splits around it into two parts free of it. */
  lemma SplitAtOnlyReturn(b: Batch) returns (p: Batch, q: Batch)
    requires Return in b && AtMostOneReturn(b)
    ensures b == p + [Return] + q
    ensures Return !in p && Return !in q
  {
    var i := IndexOf(b, Return);
    p, q := b[..i], b[i + 1..];
    assert b == p + [Return] + q;
    forall m | 0 <= m < |q|
      ensures q[m] != Return
    {
      assert b[i + 1 + m] == q[m];
    }
  }

  /** When every key the polls report is allowed (the key list passed to the
      poll) and the batch that ends the loop holds exactly one submit key,
      the answer is made of digits only. */
  lemma OneReturnGivesDigitAnswer(polls: seq<Batch>)
    requires Terminates(polls)
    requires AllAllowed(Concat(polls))
    requires AtMostOneReturn(polls[FirstReturnPoll(polls)])
    ensures var answer := ExtractAnswer(Accumulated(polls)); answer.Some? && AllDigits(answer.value)
  {
    var f := FirstReturnPoll(polls);
    AccumulatedSplit(polls);
    assert polls == polls[..f + 1] + polls[f + 1..];
    ConcatAppend(polls[..f + 1], polls[f + 1..]);
    AllowedAppend(Accumulated(polls), Concat(polls[f + 1..]));
    AllowedAppend(Concat(polls[..f]), polls[f]);
    NoReturnBeforeFirst(polls);
    DigitAnswerThroughBatch(Concat(polls[..f]), polls[f]);
  }

  /** The polls before the first submit deliver no submit key. */
  lemma NoReturnBeforeFirst(polls: seq<Batch>)
    requires Terminates(polls)
    ensures Return !in Concat(polls[..FirstReturnPoll(polls)])
  {
    ConcatMember(polls[..FirstReturnPoll(polls)], Return);
  }

  /** Submit-free allowed keys followed by a batch holding a single submit key
      give a digits-only answer. */
  lemma DigitAnswerThroughBatch(earlier: seq<Key>, b: Batch)
    requires AllAllowed(earlier) && Return !in earlier
    requires AllAllowed(b) && Return in b && AtMostOneReturn(b)
    ensures ExtractAnswer(earlier + b).Some?
    ensures AllDigits(ExtractAnswer(earlier + b).value)
  {
    var p, q := SplitAtOnlyReturn(b);
    assert AllAllowed(p) && AllAllowed(q);
    AllowedAppend(earlier, p);
    AllowedAppend(p, [Return] + q);
    assert earlier + b == (earlier + p) + [Return] + q;
    DigitAnswer(earlier + p, q);
  }

  /** The accumulated list is the keys of the polls before the first submit,
      followed by the whole batch that delivered it. */
  lemma AccumulatedSplit(polls: seq<Batch>)
    requires Terminates(polls)
    ensures Accumulated(polls)
         == Concat(polls[..FirstReturnPoll(polls)]) + polls[FirstReturnPoll(polls)]
  {
    var f := FirstReturnPoll(polls);
    assert polls[..f + 1] == polls[..f] + [polls[f]];
    ConcatAppend(polls[..f], [polls[f]]);
    ConcatSingle(polls[f]);
  }

  /** Allowed keys around a single submit key join into digits only. */
  lemma DigitAnswer(pre: seq<Key>, post: seq<Key>)
    requires AllAllowed(pre) && AllAllowed(post)
    requires Return !in pre && Return !in post
    ensures ExtractAnswer(pre + [Return] + post).Some?
    ensures AllDigits(ExtractAnswer(pre + [Return] + post).value)
  {
    AnswerKeepsKeysAfterReturn(pre, post);
    AllowedWithoutReturnAreDigits(pre);
    AllowedWithoutReturnAreDigits(post);
    JoinDigitKeys(pre);
    JoinDigitKeys(post);
  }

  /** The four parallel result lists of the session. */
  datatype Results = Results(correct: seq<Value>, accuracy: seq<int>, responses: seq<string>, responseTimes: seq<real>)

  /** The lists as created before the first trial. */
  const NoResults: Results := Results([], [], [], [])

  /** All four lists have the same length. */
  predicate Aligned(r: Results) {
    |r.correct| == |r.accuracy| == |r.responses| == |r.responseTimes|
  }

  /** Number of completed trials recorded. */
  function Count(r: Results): nat {
    |r.responses|
  }

  /** Appending one trial's outcome: each list grows by exactly one entry at
      its end and keeps every earlier entry. */
  function Record(r: Results, o: TrialOutcome): (r': Results)
    ensures |r'.correct| == |r.correct| + 1 && |r'.accuracy| == |r.accuracy| + 1
    ensures |r'.responses| == |r.responses| + 1 && |r'.responseTimes| == |r.responseTimes| + 1
    ensures forall t :: 0 <= t < |r.correct| ==> r'.correct[t] == r.correct[t]
    ensures forall t :: 0 <= t < |r.accuracy| ==> r'.accuracy[t] == r.accuracy[t]
    ensures forall t :: 0 <= t < |r.responses| ==> r'.responses[t] == r.responses[t]
    ensures forall t :: 0 <= t < |r.responseTimes| ==> r'.responseTimes[t] == r.responseTimes[t]
    ensures r'.correct[|r.correct|] == o.correct && r'.accuracy[|r.accuracy|] == o.accuracy
    ensures r'.responses[|r.responses|] == o.response && r'.responseTimes[|r.responseTimes|] == o.responseTime
  {
    Results(r.correct + [o.correct], r.accuracy + [o.accuracy],
            r.responses + [o.response], r.responseTimes + [o.responseTime])
  }

  /** Entry `t` of the result lists is what trial `t` produced for the
      expected answer and the input it saw. */
  predicate Recorded(r: Results, t: nat, expected: nat, input: TrialInput) {
    && t < |r.correct| && t < |r.accuracy| && t < |r.responses| && t < |r.responseTimes|
    && Terminates(input.polls)
    && ExtractAnswer(Accumulated(input.polls)) == Some(r.responses[t])
    && (r.accuracy[t] == Correct || r.accuracy[t] == Incorrect)
    && (r.accuracy[t] == Correct <==> r.responses[t] == NatToString(expected))
    && r.correct[t] == (if r.accuracy[t] == Correct then Text(r.responses[t]) else Num(Incorrect))
    && r.responseTimes[t] == input.endTime
  }

  /** The trial loop of one block: trial `t` is scored against `answers[t]`. */
  method RunBlock(answers: seq<nat>, inputs: seq<TrialInput>) returns (r: Results)
    requires |inputs| <= |answers|
    requires forall t :: 0 <= t < |inputs| ==> Terminates(inputs[t].polls)
    ensures Aligned(r) && Count(r) == |inputs|
    ensures forall t :: 0 <= t < |inputs| ==> Recorded(r, t, answers[t], inputs[t])
  {
    r := NoResults;
    var trial := 0;
    while trial < |inputs|
      invariant 0 <= trial <= |inputs|
      invariant Aligned(r) && Count(r) == trial
      invariant forall t :: 0 <= t < trial ==> Recorded(r, t, answers[t], inputs[t])
    {
      var o := RunTrial(answers[trial], inputs[trial]);
      r := Record(r, o);
      trial := trial + 1;
    }
  }
}
