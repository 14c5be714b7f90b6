/** Concrete trials: the behaviour of the trial loop and scoring on a few
    fixed key sequences with expected answer 57. */
module Scenarios {
  import opened Wrappers
  import opened Seqs
  import opened Decimal
  import opened Keys
  import opened Polling
  import opened Scoring

  lemma FiftySeven()
    ensures NatToString(57) == "57"
  {
    assert NatToString(5) == "5";
  }

  /** Typing 5, 7 and submit in three polls answers "57", scored correct. */
  lemma TypedSumScoredCorrect()
    ensures Terminates([["5"], ["7"], [Return]])
    ensures ExtractAnswer(Accumulated([["5"], ["7"], [Return]])) == Some("57")
    ensures Score("57", 57) == Verdict(Correct, Text("57"))
  {
    var polls: seq<Batch> := [["5"], ["7"], [Return]];
    assert Return in polls[2];
    assert FirstReturnPoll(polls) == 2;
    assert polls[..3] == [["5"], ["7"]] + [[Return]];
    ConcatAppend([["5"], ["7"]], [[Return]]);
    ConcatPair(["5"], ["7"]);
    ConcatSingle([Return]);
    assert Accumulated(polls) == ["5", "7"] + [Return] + [];
    AnswerKeepsKeysAfterReturn(["5", "7"], []);
    ConcatPair("5", "7");
    assert Join(["5", "7"]) == "57";
    assert Join([]) == "";
    assert Join(["5", "7"]) + Join([]) == "57";
    assert ExtractAnswer(Accumulated(polls)) == Some("57");
    FiftySeven();
  }

  /** Typing 5, 8 and submit answers "58", scored incorrect with the sentinel. */
  lemma WrongSumScoredIncorrect()
    ensures Score("58", 57) == Verdict(Incorrect, Num(Incorrect))
  {
    FiftySeven();
  }

  /** Keys typed in the same poll after the submit key stay in the answer:
      5, 7, submit, 3 in one poll answers "573", which 57 does not match. */
  lemma KeysAfterSubmitSpoilAnswer()
    ensures Terminates([["5", "7", Return, "3"]])
    ensures ExtractAnswer(Accumulated([["5", "7", Return, "3"]])) == Some("573")
    ensures Score("573", 57).accuracy == Incorrect
  {
    SinglePollAccumulated(["5", "7", Return, "3"]);
    assert ["5", "7", Return, "3"] == ["5", "7"] + [Return] + ["3"];
    AnswerKeepsKeysAfterReturn(["5", "7"], ["3"]);
    JoinFiveSevenThree();
    FiftySeven();
  }

  /** A single poll that delivers the submit key is the whole accumulated list. */
  lemma SinglePollAccumulated(b: Batch)
    requires Return in b
    ensures Terminates([b]) && Accumulated([b]) == b
  {
    var polls: seq<Batch> := [b];
    assert Return in polls[0];
    assert polls[..1] == polls;
    ConcatSingle(b);
  }

  lemma JoinFiveSevenThree()
    ensures Join(["5", "7"]) + Join(["3"]) == "573"
  {
    ConcatPair("5", "7");
    ConcatSingle("3");
  }

  /** A second submit key in the final poll is not removed: its name becomes
      part of the answer. */
  lemma SecondSubmitJoinedLiterally()
    ensures ExtractAnswer(["5", Return, Return]) == Some("5return")
  {
    AnswerKeepsKeysAfterReturn(["5"], [Return]);
    assert ["5"] + [Return] + [Return] == ["5", Return, Return];
    ConcatSingle("5");
    ConcatSingle(Return);
    assert Join(["5"]) + Join([Return]) == "5return";
  }
}
