/**
 * The fitness of a candidate quiz (`evaluate` in geneticAlgorithm.py):
 * every question earns the learner's score on its topic times a difficulty
 * weight, and every question whose topic already appeared earlier in the
 * candidate costs a flat 1.
 */
module Evaluator {

  /** A question of the pool; never changed once loaded. */
  datatype Question = Question(
    text: string,
    choices: seq<string>,
    correctAnswer: string,
    topic: string,
    difficulty: string)

  /** The learner's performance record: topic to score. */
  type Performance = map<string, int>

  /** `user_performance.get(topic, 1)`: a topic never scored reads as 1. */
  function PerformanceOf(perf: Performance, topic: string): (s: int)
    ensures topic !in perf ==> s == 1
    ensures AtLeastOne(perf) ==> s >= 1
  {
    if topic in perf then perf[topic] else 1
  }

  /** Every recorded score is at least 1 (the session keeps this). */
  predicate AtLeastOne(perf: Performance)
  {
    forall t :: t in perf ==> perf[t] >= 1
  }

  /** Easy 1, Medium 2, Hard 3; any other label weighs 1. */
  function DifficultyWeight(difficulty: string): (w: int)
    ensures 1 <= w <= 3
    ensures w > 1 <==> difficulty == "Medium" || difficulty == "Hard"
  {
    if difficulty == "Easy" then 1
    else if difficulty == "Medium" then 2
    else if difficulty == "Hard" then 3
    else 1
  }

  /** What one question earns before any repetition penalty. */
  function QuestionScore(perf: Performance, q: Question): (s: int)
    ensures AtLeastOne(perf) ==> s >= DifficultyWeight(q.difficulty) >= 1
  {
    PerformanceOf(perf, q.topic) * DifficultyWeight(q.difficulty)
  }

  /** Sum of the question scores, without the repetition penalty. */
  function RawScore(ind: seq<Question>, perf: Performance): int
  {
    if ind == [] then 0 else QuestionScore(perf, ind[0]) + RawScore(ind[1..], perf)
  }

  /** The distinct topics of a candidate. */
  function Topics(ind: seq<Question>): set<string>
  {
    set q | q in ind :: q.topic
  }

  /** Fitness in closed form: raw score minus one per question beyond the first of each topic. */
  function Fitness(ind: seq<Question>, perf: Performance): int
  {
    RawScore(ind, perf) - (|ind| - |Topics(ind)|)
  }

  lemma TopicsSnoc(s: seq<Question>, q: Question)
    ensures Topics(s + [q]) == Topics(s) + {q.topic}
  {
    forall t | t in Topics(s) + {q.topic}
      ensures t in Topics(s + [q])
    {
      if t == q.topic {
        assert q in s + [q];
      } else {
        var p :| p in s && p.topic == t;
        assert p in s + [q];
      }
    }
  }

  lemma {:induction false} RawScoreSnoc(s: seq<Question>, q: Question, perf: Performance)
    ensures RawScore(s + [q], perf) == RawScore(s, perf) + QuestionScore(perf, q)
  {
    if s != [] {
      assert (s + [q])[1..] == s[1..] + [q];
      RawScoreSnoc(s[1..], q, perf);
    }
  }

  /**
   * One step of the fitness loop: appending a question adds its score and
   * subtracts 1 exactly when its topic was already seen; the first
   * occurrence of a topic is never penalised.
   */
  lemma FitnessSnoc(s: seq<Question>, q: Question, perf: Performance)
    ensures Fitness(s + [q], perf)
         == Fitness(s, perf) + QuestionScore(perf, q) - (if q.topic in Topics(s) then 1 else 0)
  {
    RawScoreSnoc(s, q, perf);
    TopicsSnoc(s, q);
    if q.topic in Topics(s) {
      assert Topics(s) + {q.topic} == Topics(s);
    } else {
      assert |Topics(s) + {q.topic}| == |Topics(s)| + 1;
    }
  }

  /** A candidate never has more distinct topics than questions, so the penalty is never negative. */
  lemma {:induction false} TopicsBound(s: seq<Question>)
    ensures |Topics(s)| <= |s|
  {
    if s != [] {
      var init := s[..|s| - 1];
      assert s == init + [s[|s| - 1]];
      TopicsSnoc(init, s[|s| - 1]);
      TopicsBound(init);
    }
  }

  /**
   * The loop of `evaluate`: walks the candidate once, keeping the running
   * fitness and the set of topics seen so far.
   */
  method Evaluate(ind: seq<Question>, perf: Performance) returns (fitness: int)
    ensures fitness == Fitness(ind, perf)
  {
    fitness := 0;
    var seenTopics: set<string> := {};
    var i := 0;
    while i < |ind|
      invariant 0 <= i <= |ind|
      invariant seenTopics == Topics(ind[..i])
      invariant fitness == Fitness(ind[..i], perf)
    {
      var question := ind[i];
      fitness := fitness + PerformanceOf(perf, question.topic) * DifficultyWeight(question.difficulty);
      if question.topic in seenTopics {
        fitness := fitness - 1;
      }
      FitnessSnoc(ind[..i], question, perf);
      TopicsSnoc(ind[..i], question);
      seenTopics := seenTopics + {question.topic};
      assert ind[..i + 1] == ind[..i] + [question];
      i := i + 1;
    }
    assert ind[..i] == ind;
  }

  /** A one-question candidate (the per-turn quiz) is worth exactly that question's score. */
  lemma FitnessOfOne(q: Question, perf: Performance)
    ensures Fitness([q], perf) == QuestionScore(perf, q)
  {
    assert Topics([]) == {};
    assert [] + [q] == [q];
    TopicsSnoc([], q);
    assert [q][1..] == [];
    assert RawScore([q], perf) == QuestionScore(perf, q) + RawScore([], perf);
    assert |{q.topic}| == 1;
  }

  /** Topic "Verbs" with score 2 at difficulty Hard is worth 6. */
  lemma HardVerbsExample(q: Question)
    requires q.topic == "Verbs" && q.difficulty == "Hard"
    ensures Fitness([q], map["Verbs" := 2]) == 6
  {
    FitnessOfOne(q, map["Verbs" := 2]);
  }

  /** Two Easy "Verbs" questions with score 1 give 1 + (1 - 1) == 1. */
  lemma RepeatedTopicExample(q1: Question, q2: Question)
    requires q1.topic == q2.topic == "Verbs" && q1.difficulty == q2.difficulty == "Easy"
    ensures Fitness([q1, q2], map["Verbs" := 1]) == 1
  {
    var perf := map["Verbs" := 1];
    FitnessOfOne(q1, perf);
    FitnessSnoc([q1], q2, perf);
    assert [q1] + [q2] == [q1, q2];
    assert q1 in [q1];
  }

  lemma {:induction false} RawScoreAtLeastLength(s: seq<Question>, perf: Performance)
    requires AtLeastOne(perf)
    ensures RawScore(s, perf) >= |s|
  {
    if s != [] {
      RawScoreAtLeastLength(s[1..], perf);
    }
  }

  /** While every score is at least 1, a candidate is worth at least its number of distinct topics. */
  lemma FitnessLowerBound(s: seq<Question>, perf: Performance)
    requires AtLeastOne(perf)
    ensures Fitness(s, perf) >= |Topics(s)|
  {
    RawScoreAtLeastLength(s, perf);
  }

  /** Removing one question from anywhere takes exactly its score off the raw score. */
  lemma {:induction false} RawScoreRemove(s: seq<Question>, j: nat, perf: Performance)
    requires j < |s|
    ensures RawScore(s, perf) == QuestionScore(perf, s[j]) + RawScore(s[..j] + s[j + 1..], perf)
  {
    if j > 0 {
      RawScoreRemove(s[1..], j - 1, perf);
      assert s[..j] + s[j + 1..] == [s[0]] + (s[1..][..j - 1] + s[1..][j..]);
    } else {
      assert s[..j] + s[j + 1..] == s[1..];
    }
  }

  lemma {:induction false} RawScorePermutation(a: seq<Question>, b: seq<Question>, perf: Performance)
    requires multiset(a) == multiset(b)
    ensures RawScore(a, perf) == RawScore(b, perf)
    decreases |a|
  {
    if a == [] {
      assert |b| == |multiset(b)| == 0;
    } else {
      assert a[0] in multiset(b);
      var j :| 0 <= j < |b| && b[j] == a[0];
      var rest := b[..j] + b[j + 1..];
      RemoveOneMultiset(b, j);
      assert a == [a[0]] + a[1..];
      assert multiset(a[1..]) == multiset(a) - multiset{a[0]};
      RawScorePermutation(a[1..], rest, perf);
      RawScoreRemove(b, j, perf);
    }
  }

  lemma RemoveOneMultiset(b: seq<Question>, j: nat)
    requires j < |b|
    ensures multiset(b[..j] + b[j + 1..]) == multiset(b) - multiset{b[j]}
  {
    assert b == b[..j] + [b[j]] + b[j + 1..];
  }

  /**
   * Fitness depends only on which questions a candidate holds, not on their
   * order: reordering the genes (as the shuffle mutation does) never changes it.
   */
  lemma FitnessPermutation(a: seq<Question>, b: seq<Question>, perf: Performance)
    requires multiset(a) == multiset(b)
    ensures Fitness(a, perf) == Fitness(b, perf)
  {
    RawScorePermutation(a, b, perf);
    assert |a| == |multiset(a)| == |multiset(b)| == |b|;
    assert Topics(a) == Topics(b) by {
      forall q ensures q in a <==> q in b {
        assert q in a <==> q in multiset(a);
        assert q in b <==> q in multiset(b);
      }
    }
  }
}
