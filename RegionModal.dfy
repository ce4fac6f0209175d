/** The region dialog (src/components/RegionModal.js): an information
    view, a quiz over the region's questions with scoring and a feedback
    tier, and a donation view, switched by a three-state machine. */
module RegionModal {
  import opened Common

  datatype Question = Question(question: string, options: seq<string>, correctAnswer: int)

  /** An entry of the regions data file. */
  datatype RegionEntry = RegionEntry(name: string, description: string, detailsLink: string,
                                     qrCodePath: string, tests: seq<Question>)

  datatype ModalState = Info | Test | Qr

  /** `percentage` is absent when the region has no questions: 0 / 0 gives
      NaN, which none of the feedback conditions accepts. */
  datatype TestResults = TestResults(correct: nat, total: nat, percentage: Option<int>)

  /** The dialog shows nothing for a key the data file does not have. */
  function EntryFor(data: map<string, RegionEntry>, key: string): (r: Option<RegionEntry>)
    ensures r.None? <==> key !in data
    ensures r.Some? ==> r.value == data[key]
  {
    if key in data then Some(data[key]) else None
  }

  predicate AnsweredCorrectly(answers: map<int, int>, i: int, q: Question) {
    i in answers && answers[i] == q.correctAnswer
  }

  /** The number of questions whose selected answer is the correct one. */
  function CountCorrect(tests: seq<Question>, answers: map<int, int>): nat {
    if tests == [] then 0
    else
      var last := |tests| - 1;
      CountCorrect(tests[..last], answers) + (if AnsweredCorrectly(answers, last, tests[last]) then 1 else 0)
  }

  /** The score never exceeds the number of questions, reaches it exactly
      when every question is answered correctly, and is zero exactly when
      none is. */
  lemma {:induction false} CountCorrectBounds(tests: seq<Question>, answers: map<int, int>)
    ensures CountCorrect(tests, answers) <= |tests|
    ensures CountCorrect(tests, answers) == |tests| <==>
              forall i :: 0 <= i < |tests| ==> AnsweredCorrectly(answers, i, tests[i])
    ensures CountCorrect(tests, answers) == 0 <==>
              forall i :: 0 <= i < |tests| ==> !AnsweredCorrectly(answers, i, tests[i])
  {
    if tests != [] {
      var last := |tests| - 1;
      var init := tests[..last];
      CountCorrectBounds(init, answers);
      assert forall i :: 0 <= i < last ==> init[i] == tests[i];
    }
  }

  /** The scoring loop of `handleTestSubmit`. */
  method Score(tests: seq<Question>, answers: map<int, int>) returns (correct: nat)
    ensures correct == CountCorrect(tests, answers)
  {
    correct := 0;
    var i := 0;
    while i < |tests|
      invariant 0 <= i <= |tests|
      invariant correct == CountCorrect(tests[..i], answers)
    {
      assert tests[..i + 1][..i] == tests[..i];
      if AnsweredCorrectly(answers, i, tests[i]) {
        correct := correct + 1;
      }
      i := i + 1;
    }
    assert tests[..i] == tests;
  }

  /** `Math.round(correct / total * 100)` in exact arithmetic: round half
      up of 100·correct/total. */
  function Percentage(correct: nat, total: nat): Option<int> {
    if total == 0 then None else Some((200 * correct + total) / (2 * total))
  }

  /** The percentage is the nearest whole number to 100·correct/total
      (halves rounded up) and lies in [0, 100]; a full score gives 100 and
      no correct answer gives 0. */
  lemma PercentageBounds(correct: nat, total: nat)
    requires correct <= total
    ensures total == 0 <==> Percentage(correct, total).None?
    ensures total > 0 ==>
              var p := Percentage(correct, total).value;
              && 2 * total * p <= 200 * correct + total < 2 * total * (p + 1)
              && 0 <= p <= 100
              && (correct == total ==> p == 100)
              && (correct == 0 ==> p == 0)
  {
    if total > 0 {
      var d, n := 2 * total, 200 * correct + total;
      var p := n / d;
      assert Percentage(correct, total).value == p;
      DivBounds(n, d);
      assert d * (p + 1) == d * p + d;
      if p > 100 {
        MulMonotone(d, 101, p);
      }
      if p < 0 {
        MulMonotone(d, p + 1, 0);
      }
      if correct == total && p < 100 {
        MulMonotone(d, p + 1, 100);
      }
      if correct == 0 && p > 0 {
        MulMonotone(d, 1, p);
      }
    }
  }

  /** A better score never gets a lower percentage. */
  lemma PercentageMonotone(c1: nat, c2: nat, total: nat)
    requires c1 <= c2 && total > 0
    ensures Percentage(c1, total).value <= Percentage(c2, total).value
  {
    var d := 2 * total;
    var n1, n2 := 200 * c1 + total, 200 * c2 + total;
    var p1, p2 := n1 / d, n2 / d;
    assert Percentage(c1, total).value == p1 && Percentage(c2, total).value == p2;
    DivBounds(n1, d);
    DivBounds(n2, d);
    if p1 > p2 {
      assert d * (p2 + 1) == d * p2 + d;
      MulMonotone(d, p2 + 1, p1);
    }
  }

  const Excellent: string := "Відмінно! Ви чудово знаєте регіон!"
  const Good: string := "Добре! Але є куди рости."
  const Fair: string := "Непогано, але варто підучити."
  const Poor: string := "Потрібно краще вивчити регіон."

  /** The four independent conditions of the results view, in order; a
      missing percentage satisfies none of them. */
  function Messages(percentage: Option<int>): (m: seq<string>)
    ensures percentage.None? ==> m == []
    ensures percentage.Some? ==> |m| == 1
    ensures percentage.Some? ==>
              var p := percentage.value;
              && (m[0] == Excellent <==> p >= 90)
              && (m[0] == Good <==> 70 <= p < 90)
              && (m[0] == Fair <==> 50 <= p < 70)
              && (m[0] == Poor <==> p < 50)
  {
    if percentage.None? then []
    else
      var p := percentage.value;
      (if p >= 90 then [Excellent] else [])
      + (if p >= 70 && p < 90 then [Good] else [])
      + (if p >= 50 && p < 70 then [Fair] else [])
      + (if p < 50 then [Poor] else [])
  }

  /** The submit button's condition: as many answers as questions. */
  predicate SubmitEnabled(answers: map<int, int>, tests: seq<Question>) {
    |answers.Keys| == |tests|
  }

  /** The indexes 0 .. n - 1 of a quiz of n questions. */
  function QuestionIndexes(n: nat): (r: set<int>)
    ensures |r| == n
    ensures forall i :: i in r <==> 0 <= i < n
  {
    if n == 0 then {} else QuestionIndexes(n - 1) + {n - 1}
  }

  lemma HasElement(a: set<int>)
    requires |a| > 0
    ensures exists x :: x in a
  {
    if forall x :: x !in a {
      assert false;
    }
  }

  lemma {:induction false} SubsetSize(a: set<int>, b: set<int>)
    requires a <= b
    ensures |a| <= |b|
    ensures |a| == |b| ==> a == b
  {
    if |a| > 0 {
      HasElement(a);
      var x :| x in a;
      SubsetSize(a - {x}, b - {x});
    } else if |b| > 0 {
      HasElement(b);
      var y :| y in b;
    }
  }

  /** Answers only ever name questions of the quiz, so the submit button is
      enabled exactly when every question has an answer. */
  lemma SubmitEnabledIffAllAnswered(answers: map<int, int>, tests: seq<Question>)
    requires forall q :: q in answers ==> 0 <= q < |tests|
    ensures SubmitEnabled(answers, tests) <==> forall i :: 0 <= i < |tests| ==> i in answers
  {
    assert answers.Keys <= QuestionIndexes(|tests|);
    SubsetSize(answers.Keys, QuestionIndexes(|tests|));
    if forall i :: 0 <= i < |tests| ==> i in answers {
      assert answers.Keys == QuestionIndexes(|tests|);
    }
  }

  /** The results `handleTestSubmit` stores. */
  function ResultsFor(tests: seq<Question>, answers: map<int, int>): TestResults {
    var c := CountCorrect(tests, answers);
    TestResults(c, |tests|, Percentage(c, |tests|))
  }

  class RegionDialog {
    const entry: RegionEntry
    var modalState: ModalState
    var selectedAnswers: map<int, int>
    var testResults: Option<TestResults>

    /** Answers name questions of the quiz; outside the quiz there are no
        answers and no results; stored results are the score of the stored
        answers, which then answer every question. */
    ghost predicate Valid()
      reads this
    {
      && (forall q :: q in selectedAnswers ==> 0 <= q < |entry.tests|)
      && (modalState != Test ==> selectedAnswers == map[] && testResults.None?)
      && (testResults.Some? ==>
            testResults.value == ResultsFor(entry.tests, selectedAnswers)
            && forall i :: 0 <= i < |entry.tests| ==> i in selectedAnswers)
    }

    constructor (entry: RegionEntry)
      ensures Valid() && this.entry == entry
      ensures modalState == Info && selectedAnswers == map[] && testResults.None?
    {
      this.entry := entry;
      modalState := Info;
      selectedAnswers := map[];
      testResults := None;
    }

    /** `handleTestClick`, from the information view or from the results
        ("take the test again"): a fresh quiz. */
    method TestClick()
      requires Valid()
      requires modalState == Info || (modalState == Test && testResults.Some?)
      modifies this
      ensures Valid()
      ensures modalState == Test && selectedAnswers == map[] && testResults.None?
    {
      modalState := Test;
      selectedAnswers := map[];
      testResults := None;
    }

    /** `handleDonateClick`, from the information view. */
    method DonateClick()
      requires Valid() && modalState == Info
      modifies this
      ensures Valid()
      ensures modalState == Qr && selectedAnswers == old(selectedAnswers) && testResults == old(testResults)
    {
      modalState := Qr;
    }

    /** `handleBackToInfo`, from the quiz or the donation view. */
    method BackToInfo()
      requires Valid() && modalState != Info
      modifies this
      ensures Valid()
      ensures modalState == Info && selectedAnswers == map[] && testResults.None?
    {
      modalState := Info;
      selectedAnswers := map[];
      testResults := None;
    }

    /** `handleAnswerSelect`: one radio button of one question. */
    method AnswerSelect(question: int, answer: int)
      requires Valid() && modalState == Test && testResults.None?
      requires 0 <= question < |entry.tests|
      requires 0 <= answer < |entry.tests[question].options|
      modifies this
      ensures Valid()
      ensures modalState == Test && testResults.None?
      ensures selectedAnswers == old(selectedAnswers)[question := answer]
      ensures question in selectedAnswers && selectedAnswers[question] == answer
      ensures forall q :: q != question ==>
                (q in selectedAnswers <==> q in old(selectedAnswers))
                && (q in selectedAnswers ==> selectedAnswers[q] == old(selectedAnswers)[q])
    {
      selectedAnswers := selectedAnswers[question := answer];
    }

    /** `handleTestSubmit`, reachable only with every question answered. */
    method TestSubmit()
      requires Valid() && modalState == Test && testResults.None?
      requires SubmitEnabled(selectedAnswers, entry.tests)
      modifies this
      ensures Valid()
      ensures modalState == Test && selectedAnswers == old(selectedAnswers)
      ensures testResults.Some? && testResults.value.total == |entry.tests|
      ensures testResults.value.correct == CountCorrect(entry.tests, selectedAnswers)
      ensures testResults.value.percentage == Percentage(testResults.value.correct, |entry.tests|)
    {
      SubmitEnabledIffAllAnswered(selectedAnswers, entry.tests);
      var correct := Score(entry.tests, selectedAnswers);
      testResults := Some(TestResults(correct, |entry.tests|, Percentage(correct, |entry.tests|)));
    }
  }
}
