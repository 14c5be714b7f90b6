/** The rows written to the results file at the end of the session
    (experiment.py:207-214), and the whole session put together. Opening the
    file and the csv formatting are not modelled: the result is the list of
    rows handed to the writer. */
module Output {
  import opened Wrappers
  import opened Decimal
  import opened Polling
  import opened Scoring
  import opened Conditions
  import opened Session

  /** One row handed to the csv writer. */
  type Row = seq<Value>

  const Header: Row := [Text("response"), Text("accuracy"), Text("correct responses"), Text("response time")]

  /** A data row of the shape `Rows` writes. */
  predicate WellShaped(row: Row) {
    |row| == 4 && row[0].Text? && row[1].Num? && row[3].Seconds?
  }

  /** The header row, then row `i` built from entry `i` of each result list, for
      every index of the response list. The other lists must be at least as
      long (the source would raise IndexError otherwise). */
  function Rows(r: Results): (rows: seq<Row>)
    requires |r.accuracy| >= |r.responses| && |r.correct| >= |r.responses|
    requires |r.responseTimes| >= |r.responses|
    ensures |rows| == |r.responses| + 1 && rows[0] == Header
    ensures forall i :: 1 <= i < |rows| ==> WellShaped(rows[i])
  {
    [Header] + seq(|r.responses|, i requires 0 <= i < |r.responses| =>
                     [Text(r.responses[i]), Num(r.accuracy[i]), r.correct[i], Seconds(r.responseTimes[i])])
  }

  /** Reading the result lists back from the data rows (header excluded);
      `None` when some row does not have the written shape. */
  function Columns(rows: seq<Row>): (r: Option<Results>)
    ensures r.Some? ==> Aligned(r.value) && Count(r.value) == |rows|
    ensures r.None? <==> exists i :: 0 <= i < |rows| && !WellShaped(rows[i])
  {
    if forall i :: 0 <= i < |rows| ==> WellShaped(rows[i]) then
      Some(Results(seq(|rows|, i requires 0 <= i < |rows| => rows[i][2]),
                   seq(|rows|, i requires 0 <= i < |rows| => rows[i][1].num),
                   seq(|rows|, i requires 0 <= i < |rows| => rows[i][0].text),
                   seq(|rows|, i requires 0 <= i < |rows| => rows[i][3].secs)))
    else None
  }

  /** The data rows carry the four result lists completely and in order:
      reading them back gives exactly the lists that were written. */
  lemma RowsRoundTrip(r: Results)
    requires Aligned(r)
    ensures Columns(Rows(r)[1..]) == Some(r)
  {
    var data := Rows(r)[1..];
    assert forall i :: 0 <= i < |data| ==> WellShaped(data[i]);
    var c := Columns(data).value;
    assert c.correct == r.correct;
    assert c.accuracy == r.accuracy;
    assert c.responses == r.responses;
    assert c.responseTimes == r.responseTimes;
  }

  /** A data row reporting one trial, with keyboard and clock `input`, scored
      against `expected`: the response is the answer extracted from the keys
      the trial accumulated, accuracy is 1 exactly when that response is the
      decimal string of `expected`, the response is echoed in the third cell
      when correct and -1 otherwise, and the last cell is the timer reading. */
  predicate ReportsTrial(row: Row, expected: nat, input: TrialInput) {
    && WellShaped(row)
    && Terminates(input.polls)
    && ExtractAnswer(Accumulated(input.polls)) == Some(row[0].text)
    && (row[1] == Num(Correct) || row[1] == Num(Incorrect))
    && (row[1] == Num(Correct) <==> row[0] == Text(NatToString(expected)))
    && row[2] == (if row[1] == Num(Correct) then row[0] else Num(Incorrect))
    && row[3] == Seconds(input.endTime)
  }

  /** The whole session: prepare ten questions from the draws, run one block
      of ten trials, and build the rows of the results file: one header and
      one row per trial, row `t + 1` reporting trial `t` against the sum of
      the numbers drawn for question `t` and carrying the answer extracted
      from trial `t`'s keys. */
  method RunExperiment(draws: seq<Draw>, inputs: seq<TrialInput>) returns (rows: seq<Row>)
    requires |draws| == QuestionCount
    requires forall i :: 0 <= i < |draws| ==> InRange(draws[i])
    requires |inputs| == Trials
    requires forall t :: 0 <= t < |inputs| ==> Terminates(inputs[t].polls)
    ensures |rows| == Trials + 1 && rows[0] == Header
    ensures forall t :: 0 <= t < Trials ==> ReportsTrial(rows[t + 1], AnswerOf(draws[t]), inputs[t])
  {
    var questions, answers := PrepareConditions(draws);
    var results := RunBlock(answers, inputs);
    rows := Rows(results);
    forall t | 0 <= t < Trials
      ensures ReportsTrial(rows[t + 1], AnswerOf(draws[t]), inputs[t])
    {
      assert rows[t + 1] == [Text(results.responses[t]), Num(results.accuracy[t]),
                             results.correct[t], Seconds(results.responseTimes[t])];
      assert Recorded(results, t, answers[t], inputs[t]);
    }
  }
}
