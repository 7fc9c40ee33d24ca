/**
 * The quiz session of quizapp.py: the fixed question table, the answer
 * store, the Previous/Next/Finish navigation, the score count and the
 * result banding.
 */
module Quiz {

  datatype Question = Question(text: string, options: seq<string>, correct: nat)

  /** QUIZ_DATA: eight questions, each with four options and the index of the right one. */
  const QuizData: seq<Question> := [
    Question("What is the capital of France?", ["London", "Berlin", "Paris", "Madrid"], 2),
    Question("Which planet is known as the Red Planet?", ["Venus", "Mars", "Jupiter", "Saturn"], 1),
    Question("What is 7 × 8?", ["54", "56", "58", "64"], 1),
    Question("Who wrote 'Romeo and Juliet'?",
             ["Charles Dickens", "William Shakespeare", "Jane Austen", "Mark Twain"], 1),
    Question("What is the largest mammal in the world?",
             ["African Elephant", "Blue Whale", "Giraffe", "Polar Bear"], 1),
    Question("In which year did World War II end?", ["1943", "1944", "1945", "1946"], 2),
    Question("What is the chemical symbol for gold?", ["Go", "Gd", "Au", "Ag"], 2),
    Question("Which continent is the Sahara Desert located in?",
             ["Asia", "Africa", "Australia", "South America"], 1)
  ]

  /** Every question's right answer is one of its options. */
  lemma CorrectIndexInRange()
    ensures forall i :: 0 <= i < |QuizData| ==> QuizData[i].correct < |QuizData[i].options|
  {
  }

  /** The stored answer to question i is its right option. */
  predicate IsCorrect(answers: map<nat, nat>, i: nat)
  {
    i in answers && i < |QuizData| && answers[i] == QuizData[i].correct
  }

  /** The questions among `keys` answered correctly. */
  function CorrectAmong(answers: map<nat, nat>, keys: set<nat>): set<nat>
  {
    set i | i in keys && IsCorrect(answers, i)
  }

  /** Adding one more question to `keys` adds one to the correct count exactly when its answer is right. */
  lemma CorrectAmongAddOne(answers: map<nat, nat>, keys: set<nat>, i: nat)
    requires i !in keys
    ensures |CorrectAmong(answers, keys + {i})| ==
            |CorrectAmong(answers, keys)| + (if IsCorrect(answers, i) then 1 else 0)
  {
    if IsCorrect(answers, i) {
      assert CorrectAmong(answers, keys + {i}) == CorrectAmong(answers, keys) + {i};
    } else {
      assert CorrectAmong(answers, keys + {i}) == CorrectAmong(answers, keys);
    }
  }

  /** A set of indices below n has at most n members. */
  lemma {:induction false} IndexSetBounded(s: set<nat>, n: nat)
    requires forall i :: i in s ==> i < n
    ensures |s| <= n
  {
    if n > 0 {
      var rest := s - {n - 1};
      IndexSetBounded(rest, n - 1);
      assert s <= rest + {n - 1};
    } else {
      assert s == {};
    }
  }

  /** A subset is no larger than its superset. */
  lemma SubsetNoLarger(a: set<nat>, b: set<nat>)
    requires a <= b
    ensures |a| <= |b|
  {
    assert b == a + (b - a);
  }

  /** The percentage test of show_results in integer terms. */
  lemma PercentageAtLeast(score: nat, total: nat, bound: nat)
    requires total > 0
    ensures (score as real / total as real) * 100.0 >= bound as real <==> 100 * score >= bound * total
  {
    var q := score as real / total as real;
    assert q * total as real == score as real;
    assert (q * 100.0) * total as real == (100 * score) as real;
    if q * 100.0 >= bound as real {
      assert (q * 100.0) * total as real >= bound as real * total as real;
    } else {
      assert (q * 100.0) * total as real < bound as real * total as real;
    }
  }

  datatype Band = Excellent | Good | KeepStudying

  /**
   * The performance message of show_results, chosen on the percentage
   * score / total * 100: at least 80, at least 60, or below.
   */
  function ResultBand(score: nat, total: nat): (r: Band)
    requires total > 0
    ensures r == Excellent <==> 5 * score >= 4 * total
    ensures r == Good <==> 3 * total <= 5 * score < 4 * total
    ensures r == KeepStudying <==> 5 * score < 3 * total
  {
    PercentageAtLeast(score, total, 80);
    PercentageAtLeast(score, total, 60);
    var percentage := (score as real / total as real) * 100.0;
    if percentage >= 80.0 then Excellent
    else if percentage >= 60.0 then Good
    else KeepStudying
  }

  class QuizSession {
    var currentQuestion: nat
    var score: nat
    var answers: map<nat, nat>
    var quizCompleted: bool
    var showResults: bool

    /**
     * The cursor stays on a question, every stored answer is an option of
     * its question, every question before the cursor has an answer, the
     * results screen follows completion, and completion means every
     * question was answered. The `score` field is only ever set to 0: the
     * shown score is computed afresh by CalculateScore.
     */
    ghost predicate Valid()
      reads this
    {
      && currentQuestion < |QuizData|
      && (forall i :: i in answers ==> i < |QuizData| && answers[i] < |QuizData[i].options|)
      && (forall i :: 0 <= i < currentQuestion ==> i in answers)
      && (showResults ==> quizCompleted)
      && (quizCompleted ==> forall i :: 0 <= i < |QuizData| ==> i in answers)
      && score == 0
    }

    /** Whether the question view (and its navigation buttons) is on screen. */
    predicate InQuestionView()
      reads this
    {
      !showResults && !quizCompleted
    }

    /** initialize_session_state: the first question, no answers, nothing completed. */
    constructor ()
      ensures Valid()
      ensures currentQuestion == 0 && score == 0 && answers == map[]
      ensures !quizCompleted && !showResults
    {
      currentQuestion := 0;
      score := 0;
      answers := map[];
      quizCompleted := false;
      showResults := false;
    }

    /**
     * calculate_score: walk the stored answers and count those equal to
     * their question's right option.
     */
    method CalculateScore() returns (s: nat)
      requires Valid()
      ensures s == |CorrectAmong(answers, answers.Keys)|
      ensures s <= |answers| <= |QuizData|
    {
      s := 0;
      var remaining := answers.Keys;
      while remaining != {}
        invariant remaining <= answers.Keys
        invariant s == |CorrectAmong(answers, answers.Keys - remaining)|
        decreases |remaining|
      {
        var i :| i in remaining;
        CorrectAmongAddOne(answers, answers.Keys - remaining, i);
        assert answers.Keys - (remaining - {i}) == (answers.Keys - remaining) + {i};
        if answers[i] == QuizData[i].correct {
          s := s + 1;
        }
        remaining := remaining - {i};
      }
      assert answers.Keys - remaining == answers.Keys;
      SubsetNoLarger(CorrectAmong(answers, answers.Keys), answers.Keys);
      IndexSetBounded(answers.Keys, |QuizData|);
    }

    /**
     * The rerun of the question view (line 188): the radio button's
     * current option becomes the answer to the current question.
     */
    method Select(selected: nat)
      requires Valid() && selected < |QuizData[currentQuestion].options|
      modifies this`answers
      ensures Valid()
      ensures InQuestionView() ==> answers == old(answers)[currentQuestion := selected]
      ensures !InQuestionView() ==> answers == old(answers)
    {
      if InQuestionView() {
        answers := answers[currentQuestion := selected];
      }
    }

    /** Previous: store the shown answer, then step back unless on the first question. */
    method Previous(selected: nat)
      requires Valid() && selected < |QuizData[currentQuestion].options|
      modifies this
      ensures Valid()
      ensures InQuestionView() == old(InQuestionView())
      ensures old(InQuestionView()) ==> answers == old(answers)[old(currentQuestion) := selected]
      ensures !old(InQuestionView()) ==> answers == old(answers)
      ensures currentQuestion ==
                if old(InQuestionView()) && old(currentQuestion) > 0
                then old(currentQuestion) - 1 else old(currentQuestion)
      ensures quizCompleted == old(quizCompleted) && showResults == old(showResults)
    {
      Select(selected);
      if InQuestionView() && currentQuestion > 0 {
        currentQuestion := currentQuestion - 1;
      }
    }

    /** Next: store the shown answer, then step forward unless on the last question. */
    method Next(selected: nat)
      requires Valid() && selected < |QuizData[currentQuestion].options|
      modifies this
      ensures Valid()
      ensures InQuestionView() == old(InQuestionView())
      ensures old(InQuestionView()) ==> answers == old(answers)[old(currentQuestion) := selected]
      ensures !old(InQuestionView()) ==> answers == old(answers)
      ensures currentQuestion ==
                if old(InQuestionView()) && old(currentQuestion) < |QuizData| - 1
                then old(currentQuestion) + 1 else old(currentQuestion)
      ensures quizCompleted == old(quizCompleted) && showResults == old(showResults)
    {
      Select(selected);
      if InQuestionView() && currentQuestion < |QuizData| - 1 {
        currentQuestion := currentQuestion + 1;
      }
    }

    /**
     * Finish Quiz, offered on the last question only: store the shown
     * answer and mark the quiz completed; the cursor stays.
     */
    method Finish(selected: nat)
      requires Valid() && selected < |QuizData[currentQuestion].options|
      modifies this
      ensures Valid()
      ensures currentQuestion == old(currentQuestion) && showResults == old(showResults)
      ensures old(InQuestionView()) ==> answers == old(answers)[old(currentQuestion) := selected]
      ensures !old(InQuestionView()) ==> answers == old(answers)
      ensures quizCompleted <==>
                old(quizCompleted) || (old(InQuestionView()) && old(currentQuestion) == |QuizData| - 1)
      ensures quizCompleted ==> |answers| == |QuizData|
    {
      Select(selected);
      if InQuestionView() && currentQuestion == |QuizData| - 1 {
        quizCompleted := true;
      }
      if quizCompleted {
        assert answers.Keys == Below(|QuizData|);
      }
    }

    /** Show Results, offered once the quiz is completed. */
    method ShowResults()
      requires Valid()
      modifies this`showResults
      ensures Valid()
      ensures showResults == (old(showResults) || quizCompleted)
    {
      if quizCompleted {
        showResults := true;
      }
    }

    /** reset_quiz: back to the first question with no answers. */
    method ResetQuiz()
      modifies this
      ensures Valid()
      ensures currentQuestion == 0 && score == 0 && answers == map[]
      ensures !quizCompleted && !showResults
    {
      currentQuestion := 0;
      score := 0;
      answers := map[];
      quizCompleted := false;
      showResults := false;
    }
  }

  /** The indices 0 .. n-1, which are n distinct values. */
  function Below(n: nat): (r: set<nat>)
    ensures forall i: nat :: i in r <==> i < n
    ensures |r| == n
  {
    if n == 0 then {} else Below(n - 1) + {n - 1}
  }
}
