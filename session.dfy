/**
 * The adaptive session loop of `run_quiz` in geneticAlgorithm.py: each turn
 * runs the search for a one-question quiz under the current performance
 * record, reads the learner's choice and, for a valid choice, updates the
 * topic's score, the count of correct answers and the list of asked
 * questions.
 */
module Session {
  import opened Wrappers
  import opened Evaluator
  import opened Evolution

  /** The search parameters `run_quiz` uses each turn (the defaults of `adaptive_quiz_ga`). */
  const QuizGenerations := 50
  const QuizPopulationSize := 20

  /** Local state of `run_quiz`: `user_performance`, `correct_answers`, `asked_questions`. */
  datatype QuizState = QuizState(performance: Performance, correctAnswers: int, asked: seq<Question>)

  /**
   * `question["Choices"][user_choice - 1]` exactly as written: Python also
   * accepts negative indexes, counting from the end, so 0 and negative
   * numbers down to -(n-1) name a choice too.
   */
  function PythonIndexedChoice(choices: seq<string>, choice: int): (r: Option<string>)
    ensures r.Some? <==> -|choices| + 1 <= choice <= |choices|
    ensures r.Some? ==> r.value in choices
  {
    var index := choice - 1;
    if 0 <= index < |choices| then Some(choices[index])
    else if -|choices| <= index < 0 then Some(choices[|choices| + index])
    else None
  }

  /** The intended reading of the prompt "Your answer (1-4)": only 1 up to the number of choices is valid. */
  function SelectedChoice(choices: seq<string>, choice: int): (r: Option<string>)
    ensures r.Some? <==> 1 <= choice <= |choices|
    ensures r.Some? ==> r.value in choices
  {
    if 1 <= choice <= |choices| then Some(choices[choice - 1]) else None
  }

  /** On the numbers the prompt offers, the code as written and the intended reading agree. */
  lemma SelectionAgreesInRange(choices: seq<string>, choice: int)
    requires SelectedChoice(choices, choice).Some?
    ensures PythonIndexedChoice(choices, choice) == SelectedChoice(choices, choice)
  {
  }

  /** As written, answering 0 to a four-choice question selects the fourth choice instead of being rejected. */
  lemma ZeroSelectsLastChoice(choices: seq<string>)
    requires |choices| == 4
    ensures PythonIndexedChoice(choices, 0) == Some(choices[3])
    ensures SelectedChoice(choices, 0) == None
  {
  }

  /**
   * The score update of lines 108-114: a correct answer adds 1 to the
   * topic's score (default 1), a wrong one takes 1 off but never goes
   * below 1; no other topic changes.
   */
  function RecordAnswer(perf: Performance, topic: string, correct: bool): (r: Performance)
    ensures r.Keys == perf.Keys + {topic}
    ensures forall t :: t in perf && t != topic ==> r[t] == perf[t]
    ensures correct ==> r[topic] == PerformanceOf(perf, topic) + 1
    ensures !correct && PerformanceOf(perf, topic) > 1 ==> r[topic] == PerformanceOf(perf, topic) - 1
    ensures !correct && PerformanceOf(perf, topic) <= 1 ==> r[topic] == 1
  {
    var lowered := PerformanceOf(perf, topic) - 1;
    perf[topic := if correct then PerformanceOf(perf, topic) + 1 else if lowered < 1 then 1 else lowered]
  }

  /** Scores never drop below 1: the update keeps every score at least 1. */
  lemma RecordAnswerKeepsFloor(perf: Performance, topic: string, correct: bool)
    requires AtLeastOne(perf)
    ensures AtLeastOne(RecordAnswer(perf, topic, correct))
  {
  }

  /** A wrong answer right after a correct one on the same topic restores the topic's score. */
  lemma WrongUndoesCorrect(perf: Performance, topic: string)
    requires AtLeastOne(perf)
    ensures RecordAnswer(RecordAnswer(perf, topic, true), topic, false) == perf[topic := PerformanceOf(perf, topic)]
  {
  }

  /** Does `answer` (None when the input is not an integer) name the correct choice of `q`? */
  function AnswerOutcome(q: Question, answer: Option<int>): (r: Option<bool>)
    ensures r.None? <==> answer.None? || !(1 <= answer.value <= |q.choices|)
  {
    if answer.None? then None
    else match SelectedChoice(q.choices, answer.value)
      case None => None
      case Some(selected) => Some(selected == q.correctAnswer)
  }

  /**
   * One turn of the loop after the question is chosen (lines 99-117). An
   * invalid answer changes nothing; a valid one records the question as
   * asked, counts it if correct and updates its topic's score.
   */
  function Step(s: QuizState, q: Question, answer: Option<int>): (r: QuizState)
    ensures AnswerOutcome(q, answer).None? ==> r == s
    ensures AnswerOutcome(q, answer).Some? ==>
      var correct := AnswerOutcome(q, answer).value;
      r.asked == s.asked + [q]
      && r.correctAnswers == s.correctAnswers + (if correct then 1 else 0)
      && r.performance == RecordAnswer(s.performance, q.topic, correct)
  {
    match AnswerOutcome(q, answer)
    case None => s
    case Some(correct) =>
      QuizState(RecordAnswer(s.performance, q.topic, correct),
              s.correctAnswers + (if correct then 1 else 0),
              s.asked + [q])
  }

  /** The session after the given turns, from the empty record. */
  function Replay(picks: seq<Question>, answers: seq<Option<int>>): QuizState
    requires |picks| == |answers|
  {
    if picks == [] then QuizState(map[], 0, [])
    else Step(Replay(picks[..|picks| - 1], answers[..|answers| - 1]), picks[|picks| - 1], answers[|answers| - 1])
  }

  /**
   * Over any session: every score stays at least 1, only topics of asked
   * questions are scored, the asked questions are among the picks, and
   * the correct answers never exceed the asked questions, which never
   * exceed the turns.
   */
  lemma {:induction false} ReplayInvariant(picks: seq<Question>, answers: seq<Option<int>>)
    requires |picks| == |answers|
    ensures var s := Replay(picks, answers);
      AtLeastOne(s.performance)
      && s.performance.Keys <= Topics(s.asked)
      && (forall q :: q in s.asked ==> q in picks)
      && 0 <= s.correctAnswers <= |s.asked| <= |picks|
  {
    if picks != [] {
      var n := |picks| - 1;
      ReplayInvariant(picks[..n], answers[..n]);
      var s := Replay(picks[..n], answers[..n]);
      assert forall q :: q in picks[..n] ==> q in picks;
      if AnswerOutcome(picks[n], answers[n]).Some? {
        RecordAnswerKeepsFloor(s.performance, picks[n].topic, AnswerOutcome(picks[n], answers[n]).value);
        TopicsSnoc(s.asked, picks[n]);
      }
    }
  }

  /** A session in which every answer names the correct choice counts every turn as correct. */
  lemma {:induction false} ReplayAllCorrect(picks: seq<Question>, answers: seq<Option<int>>)
    requires |picks| == |answers|
    requires forall i :: 0 <= i < |picks| ==> AnswerOutcome(picks[i], answers[i]) == Some(true)
    ensures Replay(picks, answers).correctAnswers == |picks|
    ensures Replay(picks, answers).asked == picks
  {
    if picks != [] {
      var n := |picks| - 1;
      ReplayAllCorrect(picks[..n], answers[..n]);
      assert picks == picks[..n] + [picks[n]];
    }
  }

  /** In an all-correct turn no topic's score goes down. */
  lemma CorrectStepNeverLowers(s: QuizState, q: Question, answer: Option<int>, topic: string)
    requires AnswerOutcome(q, answer) == Some(true)
    ensures PerformanceOf(Step(s, q, answer).performance, topic) >= PerformanceOf(s.performance, topic)
  {
  }

  /** Replaying one more turn applies `Step` to the session so far. */
  lemma ReplaySnoc(picks: seq<Question>, answers: seq<Option<int>>, q: Question)
    requires |picks| < |answers|
    ensures Replay(picks + [q], answers[..|picks| + 1]) == Step(Replay(picks, answers[..|picks|]), q, answers[|picks|])
  {
    var n := |picks|;
    assert (picks + [q])[..n] == picks;
    assert answers[..n + 1][..n] == answers[..n];
  }

  /**
   * The question a turn asks under the record `perf` (lines 90-91): the
   * single gene of the one-question quiz the search returns, or the
   * search's error, which occurs exactly when the pool is empty.
   */
  function ChosenQuestion(questions: seq<Question>, perf: Performance, draws: RunDraws): (r: Result<Question, GAError>)
    requires ValidRunDraws(|questions|, QuizPopulationSize, 1, QuizGenerations, draws)
    ensures r.Err? <==> |questions| == 0
  {
    match Search(questions, perf, 1, QuizGenerations, QuizPopulationSize, draws)
    case Err(e) => Err(e)
    case Ok(quiz) => Ok(quiz.genes[0])
  }

  /**
   * Lines 90-91: search for a one-question quiz under `perf` and take its
   * question. Fails, as indexing the empty pool does in the source, exactly
   * when the pool is empty. The chosen question scores at least as much as
   * every one-question quiz the search evaluated.
   */
  method NextQuestion(questions: seq<Question>, perf: Performance, draws: RunDraws)
    returns (r: Result<Question, GAError>, ghost history: seq<seq<Individual>>)
    requires ValidRunDraws(|questions|, QuizPopulationSize, 1, QuizGenerations, draws)
    ensures r.Err? <==> |questions| == 0
    ensures r.Err? ==> r.error == EmptyPool
    ensures r.Ok? ==> r.value in questions
    ensures r.Ok? ==> |history| == QuizGenerations && BoundedBy(history, QuestionScore(perf, r.value), perf)
    ensures r == ChosenQuestion(questions, perf, draws)
    ensures r.Ok? ==> Uniform(InitialPopulation(questions, draws.initial), 1)
    ensures r.Ok? ==> history[0] == InitialPopulation(questions, draws.initial)
    ensures r.Ok? ==> forall g :: 0 <= g < |history| ==>
      history[g] == Run(InitialPopulation(questions, draws.initial), perf, 1, draws.generations, g)
  {
    var bestQuiz;
    bestQuiz, history := AdaptiveQuizGA(questions, perf, 1, QuizGenerations, QuizPopulationSize, draws);
    if bestQuiz.Err? {
      return Err(bestQuiz.error), history;
    }
    var genes := bestQuiz.value.genes;
    assert genes == [genes[0]];
    FitnessOfOne(genes[0], perf);
    r := Ok(genes[0]);
  }

  /**
   * Lines 99-117: read the answer, and for a valid one update the topic's
   * score and the count of correct answers, then record the question as
   * asked. The new state is `Step` of the old one.
   */
  method ApplyAnswer(performance: Performance, correctAnswers: int, asked: seq<Question>,
                     question: Question, answer: Option<int>)
    returns (performance': Performance, correctAnswers': int, asked': seq<Question>)
    ensures QuizState(performance', correctAnswers', asked')
         == Step(QuizState(performance, correctAnswers, asked), question, answer)
  {
    performance', correctAnswers', asked' := performance, correctAnswers, asked;
    if answer.None? {
      return;
    }
    var selected := SelectedChoice(question.choices, answer.value);
    if selected.None? {
      return;
    }
    if selected.value == question.correctAnswer {
      performance' := performance'[question.topic := PerformanceOf(performance', question.topic) + 1];
      correctAnswers' := correctAnswers' + 1;
    } else {
      var lowered := PerformanceOf(performance', question.topic) - 1;
      performance' := performance'[question.topic := if lowered < 1 then 1 else lowered];
    }
    asked' := asked' + [question];
  }

  /**
   * Each of `picks` is the question the search chooses, on that turn's
   * draws, under the record that the answers to the turns before it left.
   */
  predicate Chosen(questions: seq<Question>, picks: seq<Question>, answers: seq<Option<int>>, draws: seq<RunDraws>)
    requires |picks| <= |answers| && |picks| <= |draws|
    requires forall i :: 0 <= i < |draws| ==> ValidRunDraws(|questions|, QuizPopulationSize, 1, QuizGenerations, draws[i])
  {
    forall j {:trigger RecordBefore(picks, answers, j)} :: 0 <= j < |picks| ==>
      ChosenQuestion(questions, RecordBefore(picks, answers, j), draws[j]) == Ok(picks[j])
  }

  /** The topic record when turn j begins: the replay of the turns before it. */
  function RecordBefore(picks: seq<Question>, answers: seq<Option<int>>, j: nat): Performance
    requires j <= |picks| && j <= |answers|
  {
    Replay(picks[..j], answers[..j]).performance
  }

  /** A turn that asks the question the search chooses under the current record extends the chosen picks. */
  lemma ChosenSnoc(questions: seq<Question>, picks: seq<Question>, answers: seq<Option<int>>,
                   draws: seq<RunDraws>, perf: Performance, d: RunDraws, q: Question)
    requires |picks| < |answers| && |picks| < |draws|
    requires forall i :: 0 <= i < |draws| ==> ValidRunDraws(|questions|, QuizPopulationSize, 1, QuizGenerations, draws[i])
    requires Chosen(questions, picks, answers, draws)
    requires perf == Replay(picks, answers[..|picks|]).performance && d == draws[|picks|]
    requires ChosenQuestion(questions, perf, d) == Ok(q)
    ensures Chosen(questions, picks + [q], answers, draws)
  {
    var p := picks + [q];
    forall j {:trigger RecordBefore(p, answers, j)} | 0 <= j < |p|
      ensures ChosenQuestion(questions, RecordBefore(p, answers, j), draws[j]) == Ok(p[j])
    {
      ChosenAt(questions, picks, answers, draws, perf, d, q, j);
    }
  }

  /** Turn j of the extended picks, earlier or the new last one, is the search's choice. */
  lemma ChosenAt(questions: seq<Question>, picks: seq<Question>, answers: seq<Option<int>>,
                 draws: seq<RunDraws>, perf: Performance, d: RunDraws, q: Question, j: nat)
    requires |picks| < |answers| && |picks| < |draws| && j <= |picks|
    requires forall i :: 0 <= i < |draws| ==> ValidRunDraws(|questions|, QuizPopulationSize, 1, QuizGenerations, draws[i])
    requires Chosen(questions, picks, answers, draws)
    requires perf == Replay(picks, answers[..|picks|]).performance && d == draws[|picks|]
    requires ChosenQuestion(questions, perf, d) == Ok(q)
    ensures ChosenQuestion(questions, RecordBefore(picks + [q], answers, j), draws[j]) == Ok((picks + [q])[j])
  {
    if j < |picks| {
      ChosenEarlier(questions, picks, answers, draws, q, j);
    } else {
      ChosenLast(questions, picks, answers, draws, perf, d, q);
    }
  }

  /** The appended pick is the search's choice under the record the earlier turns left. */
  lemma ChosenLast(questions: seq<Question>, picks: seq<Question>, answers: seq<Option<int>>,
                   draws: seq<RunDraws>, perf: Performance, d: RunDraws, q: Question)
    requires |picks| < |answers| && |picks| < |draws|
    requires forall i :: 0 <= i < |draws| ==> ValidRunDraws(|questions|, QuizPopulationSize, 1, QuizGenerations, draws[i])
    requires perf == Replay(picks, answers[..|picks|]).performance && d == draws[|picks|]
    requires ChosenQuestion(questions, perf, d) == Ok(q)
    ensures ChosenQuestion(questions, RecordBefore(picks + [q], answers, |picks|), draws[|picks|]) == Ok(q)
  {
    assert (picks + [q])[..|picks|] == picks;
    assert RecordBefore(picks + [q], answers, |picks|) == perf;
  }

  /** Appending a pick leaves the earlier turns' choices as they were. */
  lemma ChosenEarlier(questions: seq<Question>, picks: seq<Question>, answers: seq<Option<int>>,
                      draws: seq<RunDraws>, q: Question, j: nat)
    requires |picks| < |answers| && |picks| < |draws| && j < |picks|
    requires forall i :: 0 <= i < |draws| ==> ValidRunDraws(|questions|, QuizPopulationSize, 1, QuizGenerations, draws[i])
    requires Chosen(questions, picks, answers, draws)
    ensures ChosenQuestion(questions, RecordBefore(picks + [q], answers, j), draws[j]) == Ok((picks + [q])[j])
  {
    assert (picks + [q])[..j] == picks[..j];
    assert RecordBefore(picks + [q], answers, j) == RecordBefore(picks, answers, j);
  }

  /**
   * One turn of the loop (lines 89-117): search for a question under the
   * current record, then apply the learner's answer to it. When the search
   * fails nothing changes.
   */
  method Turn(questions: seq<Question>, performance: Performance, correctAnswers: int, asked: seq<Question>,
              answer: Option<int>, d: RunDraws)
    returns (next: Result<Question, GAError>, performance': Performance, correctAnswers': int, asked': seq<Question>)
    requires ValidRunDraws(|questions|, QuizPopulationSize, 1, QuizGenerations, d)
    ensures next == ChosenQuestion(questions, performance, d)
    ensures next.Err? ==> next.error == EmptyPool
    ensures next.Err? ==> performance' == performance && correctAnswers' == correctAnswers && asked' == asked
    ensures next.Ok? ==> next.value in questions
    ensures next.Ok? ==>
      QuizState(performance', correctAnswers', asked') == Step(QuizState(performance, correctAnswers, asked), next.value, answer)
  {
    performance', correctAnswers', asked' := performance, correctAnswers, asked;
    var chosen, _ := NextQuestion(questions, performance, d);
    next := chosen;
    if next.Err? {
      return;
    }
    performance', correctAnswers', asked' := ApplyAnswer(performance, correctAnswers, asked, next.value, answer);
  }

  /**
   * `run_quiz` (lines 81-119) without its console I/O: each turn searches
   * for a one-question quiz under the current record and applies the
   * learner's answer. Fails as the source does when the pool is empty.
   * The returned session is the replay of the chosen questions and the
   * answers, so every score is at least 1 and the correct answers are at
   * most the number of turns.
   */
  method RunQuiz(questions: seq<Question>, numQuestions: int, answers: seq<Option<int>>, draws: seq<RunDraws>)
    returns (result: Result<QuizState, GAError>, picks: seq<Question>)
    requires |answers| >= numQuestions && |draws| >= numQuestions
    requires forall i :: 0 <= i < |draws| ==> ValidRunDraws(|questions|, QuizPopulationSize, 1, QuizGenerations, draws[i])
    ensures result.Err? <==> numQuestions > 0 && |questions| == 0
    ensures result.Err? ==> result.error == EmptyPool
    ensures result.Ok? ==>
      |picks| == GenomeLength(numQuestions) && (forall j :: 0 <= j < |picks| ==> picks[j] in questions)
      && result.value == Replay(picks, answers[..|picks|])
    ensures result.Ok? ==> Chosen(questions, picks, answers, draws)
    ensures result.Ok? ==>
      AtLeastOne(result.value.performance) && 0 <= result.value.correctAnswers <= |result.value.asked| <= |picks|
  {
    var userPerformance: Performance := map[];
    var askedQuestions: seq<Question> := [];
    var correctAnswers := 0;
    picks := [];
    var i := 0;
    while i < numQuestions
      invariant 0 <= i == |picks| <= GenomeLength(numQuestions)
      invariant forall j :: 0 <= j < |picks| ==> picks[j] in questions
      invariant QuizState(userPerformance, correctAnswers, askedQuestions) == Replay(picks, answers[..i])
      invariant Chosen(questions, picks, answers, draws)
    {
      ghost var record := userPerformance;
      var next;
      next, userPerformance, correctAnswers, askedQuestions :=
        Turn(questions, userPerformance, correctAnswers, askedQuestions, answers[i], draws[i]);
      if next.Err? {
        return Err(next.error), picks;
      }
      var question := next.value;
      ReplaySnoc(picks, answers, question);
      ChosenSnoc(questions, picks, answers, draws, record, draws[i], question);
      picks := picks + [question];
      i := i + 1;
    }
    if numQuestions > 0 {
      assert picks[0] in questions;
    }
    result := Ok(QuizState(userPerformance, correctAnswers, askedQuestions));
    ReplayInvariant(picks, answers[..|picks|]);
  }
}
