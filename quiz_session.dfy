/**
 * The quiz session of the interactive quiz component: the questions the
 * parser produced, the index of the question on screen, the letter chosen
 * for each question id, whether the quiz was started, whether the results
 * are shown, and the score. Each handler of the component is one method
 * of `Quiz`; `Dispatch` adds what the rendered page allows (which buttons
 * exist in each phase and when they are disabled) and keeps the
 * invariant `Consistent`.
 */
module QuizSession {
  import opened Wrappers
  import opened QuizParser

  // ---------------------------------------------------------------------
  // Scoring

  /** `selectedAnswers[question.id] === question.correctAnswer`: an
      unanswered question (`undefined`) and a question whose correct
      answer was never set (`''`) never match. */
  predicate AnsweredCorrectly(q: Question, answers: map<nat, char>)
  {
    q.id in answers && [answers[q.id]] == q.correctAnswer
  }

  /** How many of `qs` are answered correctly. */
  function CorrectCount(qs: seq<Question>, answers: map<nat, char>): (n: nat)
    ensures n <= |qs|
  {
    if qs == [] then 0
    else CorrectCount(qs[..|qs| - 1], answers) + (if AnsweredCorrectly(qs[|qs| - 1], answers) then 1 else 0)
  }

  /** With no answers at all the score is zero. */
  lemma {:induction false} NoAnswersScoreZero(qs: seq<Question>)
    ensures CorrectCount(qs, map[]) == 0
  {
    if qs != [] {
      NoAnswersScoreZero(qs[..|qs| - 1]);
    }
  }

  /** The full score is reached exactly when every question is answered
      correctly. */
  lemma {:induction false} FullScoreIff(qs: seq<Question>, answers: map<nat, char>)
    ensures CorrectCount(qs, answers) == |qs| <==> forall i :: 0 <= i < |qs| ==> AnsweredCorrectly(qs[i], answers)
  {
    if qs != [] {
      var init := qs[..|qs| - 1];
      FullScoreIff(init, answers);
      assert forall i :: 0 <= i < |init| ==> init[i] == qs[i];
    }
  }

  /** A question whose correct answer was never set (no correct-answer
      line in its block) never counts, whatever was chosen. */
  lemma UnsetAnswerNeverScores(q: Question, answers: map<nat, char>)
    requires q.correctAnswer == []
    ensures !AnsweredCorrectly(q, answers)
  {
  }

  /** A question that does not count (unanswered, answered wrongly, or
      with no correct answer set) keeps the score below the maximum. */
  lemma MissedQuestionCostsAPoint(qs: seq<Question>, answers: map<nat, char>, i: nat)
    requires i < |qs| && !AnsweredCorrectly(qs[i], answers)
    ensures CorrectCount(qs, answers) < |qs|
  {
    FullScoreIff(qs, answers);
  }

  /** Only the answers of the quiz's own questions matter: a choice
      recorded under an id that no question has changes nothing. */
  lemma {:induction false} ForeignAnswerIgnored(qs: seq<Question>, answers: map<nat, char>, id: nat, c: char)
    requires forall i :: 0 <= i < |qs| ==> qs[i].id != id
    ensures CorrectCount(qs, answers[id := c]) == CorrectCount(qs, answers)
  {
    if qs != [] {
      ForeignAnswerIgnored(qs[..|qs| - 1], answers, id, c);
    }
  }

  /** Three questions with correct letters A, B and C, answered A, B and
      D, score two. */
  lemma ScoreExample()
    ensures var qs := [Question("q1", [], "A", 0), Question("q2", [], "B", 1), Question("q3", [], "C", 2)];
            CorrectCount(qs, map[0 := 'A', 1 := 'B', 2 := 'D']) == 2
  {
    var qs := [Question("q1", [], "A", 0), Question("q2", [], "B", 1), Question("q3", [], "C", 2)];
    var answers := map[0 := 'A', 1 := 'B', 2 := 'D'];
    assert qs[..2][..1][..0] == [];
    assert !AnsweredCorrectly(qs[2], answers);
  }

  /** Answers are keyed by id and ids are distinct, so choosing the
      correct letter for one question never lowers the score. */
  lemma {:induction false} RightAnswerNeverLowersScore(qs: seq<Question>, answers: map<nat, char>, i: nat, c: char)
    requires IdsIncreasing(qs) && i < |qs| && qs[i].correctAnswer == [c]
    ensures CorrectCount(qs, answers[qs[i].id := c]) >= CorrectCount(qs, answers)
    decreases |qs|
  {
    var init := qs[..|qs| - 1];
    if i < |init| {
      RightAnswerNeverLowersScore(init, answers, i, c);
      assert qs[|qs| - 1].id != qs[i].id;
    } else {
      ForeignAnswerIgnored(init, answers, qs[i].id, c);
    }
  }

  // ---------------------------------------------------------------------
  // The review on the results page

  /** `question.options.find(opt => opt.letter === s)?.text`: the text of
      the first option whose letter, as a one-letter string, equals `s`. */
  function OptionText(options: seq<AnswerOption>, s: string): (r: Option<string>)
    ensures r.None? <==> forall i :: 0 <= i < |options| ==> [options[i].letter] != s
    ensures r.Some? ==> exists i :: 0 <= i < |options| && [options[i].letter] == s && options[i].text == r.value
                                    && forall j :: 0 <= j < i ==> [options[j].letter] != s
  {
    if options == [] then None
    else if [options[0].letter] == s then Some(options[0].text)
    else
      var r := OptionText(options[1..], s);
      assert forall i :: 1 <= i < |options| ==> options[i] == options[1..][i - 1];
      r
  }

  /** One card of the review: its number, the prompt, the chosen letter
      (absent when unanswered) and its text, whether it was right, and the
      correct answer with its text, shown only when it was not. */
  datatype ReviewRow = ReviewRow(number: nat, prompt: string, userAnswer: Option<char>,
                                 userAnswerText: Option<string>, isCorrect: bool,
                                 correctAnswer: string, correctAnswerText: Option<string>, showsCorrect: bool)

  function ReviewOf(q: Question, index: nat, answers: map<nat, char>): ReviewRow
  {
    var userAnswer := if q.id in answers then Some(answers[q.id]) else None;
    var isCorrect := AnsweredCorrectly(q, answers);
    ReviewRow(index + 1, q.question, userAnswer,
              if q.id in answers then OptionText(q.options, [answers[q.id]]) else None,
              isCorrect, q.correctAnswer, OptionText(q.options, q.correctAnswer), !isCorrect)
  }

  /** The cards, one per question, in order. */
  function Review(qs: seq<Question>, answers: map<nat, char>): (rows: seq<ReviewRow>)
    ensures |rows| == |qs|
  {
    seq(|qs|, i requires 0 <= i < |qs| => ReviewOf(qs[i], i, answers))
  }

  /** How many cards are marked correct. */
  function CorrectRows(rows: seq<ReviewRow>): nat
  {
    if rows == [] then 0 else CorrectRows(rows[..|rows| - 1]) + (if rows[|rows| - 1].isCorrect then 1 else 0)
  }

  /** The review marks exactly as many cards correct as the score says,
      and cards are numbered 1, 2, 3, ... in question order. */
  lemma {:induction false} ReviewAgreesWithScore(qs: seq<Question>, answers: map<nat, char>)
    ensures CorrectRows(Review(qs, answers)) == CorrectCount(qs, answers)
    ensures forall i :: 0 <= i < |qs| ==> Review(qs, answers)[i].number == i + 1
  {
    if qs != [] {
      var init := qs[..|qs| - 1];
      ReviewAgreesWithScore(init, answers);
      assert Review(qs, answers)[..|qs| - 1] == Review(init, answers);
    }
  }

  /** A card shows the correct answer exactly when the chosen letter is
      not it; a correct card's two texts are the same option's text. */
  lemma ReviewCard(q: Question, index: nat, answers: map<nat, char>)
    ensures ReviewOf(q, index, answers).showsCorrect <==> !AnsweredCorrectly(q, answers)
    ensures ReviewOf(q, index, answers).isCorrect ==>
              ReviewOf(q, index, answers).userAnswerText == ReviewOf(q, index, answers).correctAnswerText
  {
  }

  // ---------------------------------------------------------------------
  // The session

  /** The screen the component renders, in the order its branches are
      tried: no questions, the start page, the results, the question. */
  datatype Phase = NoQuestions | StartPage | ResultsPage | QuestionPage

  /** What the user can click. `OptionClicked(k)` is the `k`-th option
      button of the question on screen. */
  datatype Event = StartClicked | OptionClicked(k: nat) | PreviousClicked | NextClicked | RetakeClicked

  class Quiz {
    var questions: seq<Question>
    var currentQuestion: nat
    var selectedAnswers: map<nat, char>
    var showResults: bool
    var score: nat
    var quizStarted: bool

    /** The index stays on a question, and the score within bounds. */
    predicate Valid()
      reads this
    {
      && (questions == [] ==> currentQuestion == 0)
      && (questions != [] ==> currentQuestion < |questions|)
      && score <= |questions|
      && IdsIncreasing(questions)
    }

    /** What the page's buttons keep true beyond `Valid`: before the
        start nothing is chosen; every question before the one on screen
        has an answer (Next needs one); the score is zero until the
        results, and then it is the count of correct answers, with every
        question answered. */
    predicate Consistent()
      reads this
    {
      && Valid()
      && (!quizStarted ==> currentQuestion == 0 && selectedAnswers == map[] && !showResults)
      && (forall i :: 0 <= i < currentQuestion && i < |questions| ==> questions[i].id in selectedAnswers)
      && (!showResults ==> score == 0)
      && (showResults ==> && quizStarted
                          && score == CorrectCount(questions, selectedAnswers)
                          && forall i :: 0 <= i < |questions| ==> questions[i].id in selectedAnswers)
    }

    /** The component on mount: the initial state, then `parseQuizData`
        of the text it was given. */
    constructor (rawQuiz: string)
      ensures questions == ParseQuiz(rawQuiz)
      ensures currentQuestion == 0 && selectedAnswers == map[] && !showResults && score == 0 && !quizStarted
      ensures Consistent()
    {
      var qs := ParseQuizData(rawQuiz);
      questions := qs;
      currentQuestion := 0;
      selectedAnswers := map[];
      showResults := false;
      score := 0;
      quizStarted := false;
    }

    /** The screen rendered for the current state. */
    function Phase(): (p: Phase)
      reads this
      ensures p == NoQuestions <==> questions == []
      ensures p == QuestionPage <==> questions != [] && quizStarted && !showResults
    {
      if questions == [] then NoQuestions
      else if !quizStarted then StartPage
      else if showResults then ResultsPage
      else QuestionPage
    }

    /** The Previous button is disabled on the first question. */
    predicate PreviousDisabled()
      reads this
    {
      currentQuestion == 0
    }

    /** The Next / Finish button is disabled while the question on screen
        has no answer, whichever question it is. */
    predicate NextDisabled()
      reads this
      requires currentQuestion < |questions|
    {
      questions[currentQuestion].id !in selectedAnswers
    }

    /** The button reads Finish Quiz on the last question. */
    predicate OnLastQuestion()
      reads this
    {
      currentQuestion == |questions| - 1
    }

    /** `handleAnswerSelect`: records the letter for that question id,
        replacing an earlier choice; every other entry stays. */
    method HandleAnswerSelect(questionId: nat, selectedOption: char)
      requires Valid()
      modifies this
      ensures Valid()
      ensures selectedAnswers == old(selectedAnswers)[questionId := selectedOption]
      ensures unchanged(this`questions, this`currentQuestion, this`showResults, this`score, this`quizStarted)
    {
      selectedAnswers := selectedAnswers[questionId := selectedOption];
    }

    /** `calculateScore`: counts, question by question, the answers equal
        to the correct one. */
    method CalculateScore()
      requires Valid()
      modifies this`score
      ensures Valid()
      ensures score == CorrectCount(questions, selectedAnswers)
    {
      var correctCount := 0;
      var i := 0;
      while i < |questions|
        invariant 0 <= i <= |questions|
        invariant correctCount == CorrectCount(questions[..i], selectedAnswers)
      {
        assert questions[..i + 1][..i] == questions[..i];
        if AnsweredCorrectly(questions[i], selectedAnswers) {
          correctCount := correctCount + 1;
        }
        i := i + 1;
      }
      assert questions[..i] == questions;
      score := correctCount;
    }

    /** `handleNext`: moves on while there is a next question, otherwise
        scores the quiz and shows the results. */
    method HandleNext()
      requires Valid()
      modifies this
      ensures Valid()
      ensures old(currentQuestion) + 1 < |questions| ==>
                currentQuestion == old(currentQuestion) + 1 && score == old(score) && showResults == old(showResults)
      ensures old(currentQuestion) + 1 >= |questions| ==>
                currentQuestion == old(currentQuestion) && score == CorrectCount(questions, selectedAnswers) && showResults
      ensures unchanged(this`questions, this`selectedAnswers, this`quizStarted)
    {
      if currentQuestion < |questions| - 1 {
        currentQuestion := currentQuestion + 1;
      } else {
        CalculateScore();
        showResults := true;
      }
    }

    /** `handlePrevious`: moves back unless on the first question. */
    method HandlePrevious()
      requires Valid()
      modifies this`currentQuestion
      ensures Valid()
      ensures currentQuestion == if old(currentQuestion) > 0 then old(currentQuestion) - 1 else 0
    {
      if currentQuestion > 0 {
        currentQuestion := currentQuestion - 1;
      }
    }

    /** `resetQuiz`: back to the start page with nothing chosen, whatever
        the state was; the questions stay. */
    method ResetQuiz()
      requires Valid()
      modifies this
      ensures Valid()
      ensures currentQuestion == 0 && selectedAnswers == map[] && !showResults && score == 0 && !quizStarted
      ensures questions == old(questions)
    {
      currentQuestion := 0;
      selectedAnswers := map[];
      showResults := false;
      score := 0;
      quizStarted := false;
    }

    /** The Start Quiz button. */
    method StartQuiz()
      requires Valid()
      modifies this`quizStarted
      ensures Valid()
      ensures quizStarted
    {
      quizStarted := true;
    }

    /** The state but the current question, which navigation changes. */
    predicate SameButIndex(questions0: seq<Question>, answers0: map<nat, char>, showResults0: bool, score0: nat, quizStarted0: bool)
      reads this
    {
      questions == questions0 && selectedAnswers == answers0 && showResults == showResults0
      && score == score0 && quizStarted == quizStarted0
    }

    /** One click on the rendered page: only the buttons of the current
        screen exist, and a disabled one does nothing. */
    method Dispatch(e: Event)
      requires Consistent()
      modifies this
      ensures Consistent()
      ensures questions == old(questions)
      // Start Quiz exists only on the start page.
      ensures e == StartClicked ==>
                if old(Phase()) == StartPage
                then quizStarted && currentQuestion == old(currentQuestion)
                     && SameButIndex(old(questions), old(selectedAnswers), old(showResults), old(score), true)
                else unchanged(this)
      // An option button records its letter for the question on screen.
      ensures e.OptionClicked? ==>
                if old(Phase()) == QuestionPage && e.k < |old(questions[currentQuestion]).options|
                then currentQuestion == old(currentQuestion)
                     && SameButIndex(old(questions),
                                     old(selectedAnswers)[old(questions[currentQuestion]).id := old(questions[currentQuestion]).options[e.k].letter],
                                     old(showResults), old(score), old(quizStarted))
                else unchanged(this)
      // Previous moves back one question unless disabled.
      ensures e == PreviousClicked ==>
                if old(Phase()) == QuestionPage && !old(PreviousDisabled())
                then currentQuestion == old(currentQuestion) - 1
                     && SameButIndex(old(questions), old(selectedAnswers), old(showResults), old(score), old(quizStarted))
                else unchanged(this)
      // Next moves on, Finish scores and shows the results; disabled, neither.
      ensures e == NextClicked && old(Phase()) == QuestionPage && !old(NextDisabled()) && !old(OnLastQuestion()) ==>
                currentQuestion == old(currentQuestion) + 1
                && SameButIndex(old(questions), old(selectedAnswers), old(showResults), old(score), old(quizStarted))
      ensures e == NextClicked && old(Phase()) == QuestionPage && !old(NextDisabled()) && old(OnLastQuestion()) ==>
                Phase() == ResultsPage && score == CorrectCount(questions, selectedAnswers)
                && currentQuestion == old(currentQuestion) && selectedAnswers == old(selectedAnswers)
      ensures e == NextClicked && !(old(Phase()) == QuestionPage && !old(NextDisabled())) ==> unchanged(this)
      // Retake exists only on the results page and resets the session.
      ensures e == RetakeClicked ==>
                if old(Phase()) == ResultsPage
                then currentQuestion == 0 && Phase() == StartPage
                     && SameButIndex(old(questions), map[], false, 0, false)
                else unchanged(this)
    {
      var phase := Phase();
      match e
      case StartClicked =>
        if phase == StartPage {
          StartQuiz();
        }
      case OptionClicked(k) =>
        if phase == QuestionPage && k < |questions[currentQuestion].options| {
          var q := questions[currentQuestion];
          HandleAnswerSelect(q.id, q.options[k].letter);
        }
      case PreviousClicked =>
        if phase == QuestionPage && !PreviousDisabled() {
          HandlePrevious();
        }
      case NextClicked =>
        if phase == QuestionPage && !NextDisabled() {
          HandleNext();
        }
      case RetakeClicked =>
        if phase == ResultsPage {
          ResetQuiz();
        }
    }
  }
}
