/** Preparing the condition lists before the session (experiment.py:79-84):
    ten addition questions over two numbers drawn from [0,100] each. The random
    draws are inputs to the model. */
module Conditions {
  import opened Decimal

  /** `range(10)` in the preparation loop. */
  const QuestionCount: nat := 10

  /** Bounds of `random.randint(0, 100)`, both inclusive. */
  const MaxOperand: nat := 100

  /** One pair of numbers drawn for a question. */
  datatype Draw = Draw(first: nat, second: nat)

  predicate InRange(d: Draw) {
    d.first <= MaxOperand && d.second <= MaxOperand
  }

  /** The text shown for a question: `str(n1) + " + " + str(n2) + " ="`. */
  function QuestionText(d: Draw): string {
    NatToString(d.first) + " + " + NatToString(d.second) + " ="
  }

  /** The expected answer stored for a question. */
  function AnswerOf(d: Draw): (sum: nat)
    ensures InRange(d) ==> sum <= 2 * MaxOperand
  {
    d.first + d.second
  }

  /** The preparation loop: one question and one answer appended per draw. */
  method PrepareConditions(draws: seq<Draw>) returns (questions: seq<string>, answers: seq<nat>)
    requires |draws| == QuestionCount
    requires forall i :: 0 <= i < |draws| ==> InRange(draws[i])
    ensures |questions| == QuestionCount && |answers| == QuestionCount
    ensures forall i :: 0 <= i < |answers| ==> answers[i] <= 2 * MaxOperand
    ensures forall i :: 0 <= i < |answers| ==>
              questions[i] == QuestionText(draws[i]) && answers[i] == AnswerOf(draws[i])
  {
    questions := [];
    answers := [];
    var i := 0;
    while i < QuestionCount
      invariant 0 <= i <= QuestionCount
      invariant |questions| == i && |answers| == i
      invariant forall k :: 0 <= k < i ==>
                  questions[k] == QuestionText(draws[k]) && answers[k] == AnswerOf(draws[k])
    {
      questions := questions + [QuestionText(draws[i])];
      answers := answers + [AnswerOf(draws[i])];
      i := i + 1;
    }
  }

  /** In a digit string followed by text starting with a space, the first
      space sits right after the digits. */
  lemma FirstSpace(a: string, ra: string)
    requires AllDigits(a) && |ra| > 0 && ra[0] == ' '
    ensures (a + ra)[|a|] == ' '
    ensures forall i :: 0 <= i < |a| ==> (a + ra)[i] != ' '
  {
  }

  /** Two digit strings each followed by text starting with a space split the
      same way when their concatenations agree. */
  lemma SplitAtSpace(a: string, ra: string, c: string, rc: string)
    requires AllDigits(a) && AllDigits(c)
    requires |ra| > 0 && ra[0] == ' ' && |rc| > 0 && rc[0] == ' '
    requires a + ra == c + rc
    ensures a == c && ra == rc
  {
    var s := a + ra;
    FirstSpace(a, ra);
    FirstSpace(c, rc);
    assert |a| == |c|;
    assert a == s[..|a|] && c == s[..|c|];
  }

  /** The question text determines the two numbers, and with them the
      expected answer: no two different draws show the same question. */
  lemma QuestionDeterminesDraw(d: Draw, e: Draw)
    ensures QuestionText(d) == QuestionText(e) <==> d == e
  {
    if QuestionText(d) == QuestionText(e) {
      var a, b := NatToString(d.first), NatToString(d.second);
      var c, f := NatToString(e.first), NatToString(e.second);
      assert a + (" + " + b + " =") == QuestionText(d);
      assert c + (" + " + f + " =") == QuestionText(e);
      SplitAtSpace(a, " + " + b + " =", c, " + " + f + " =");
      assert (" + " + b + " =")[3..] == b + " =";
      assert (" + " + f + " =")[3..] == f + " =";
      SplitAtSpace(b, " =", f, " =");
      NatToStringInjective(d.first, e.first);
      NatToStringInjective(d.second, e.second);
    }
  }
}
