/** The quiz store returned by `createQuizStore` (src/lib/stores/quizStore.js):
    one state cell holding the loaded questions, the stats map, the weighted
    question queue and the current question, plus the stats saved in browser
    storage. Each store operation replaces the cell's fields. */
module QuizStore {
  import opened QuizStats
  import opened QuestionQueue

  datatype Option<T> = None | Some(value: T)

  /** `s[0] || null`. */
  function Head<T>(s: seq<T>): Option<T>
  {
    if s == [] then None else Some(s[0])
  }

  /** `s.slice(1)`: everything but the first element, and nothing of an
      empty list. */
  function Tail<T>(s: seq<T>): seq<T>
  {
    if s == [] then [] else s[1..]
  }

  /** Lines 44-49 of `answerQuestion`: the queue without its head, or, when
      that leaves nothing, a fresh queue built from `questions` with the new
      stats. */
  function NextQueue(questions: seq<Question>, queue: seq<Question>, stats: Stats, picks: seq<nat>): (r: seq<Question>)
    ensures questions != [] ==> r != []
    ensures (forall q :: q in queue ==> q in questions) ==> (forall q :: q in r ==> q in questions)
    ensures |queue| > 1 ==> |r| == |queue| - 1
    ensures |queue| <= 1 ==> |questions| <= |r|
    ensures |queue| <= 1 && StatsWellFormed(stats) ==> |r| <= 5 * |questions|
  {
    var rest := Tail(queue);
    QueueShape(questions, stats, picks);
    QueueLength(questions, stats, picks);
    assert queue != [] ==> rest == queue[1..];
    if rest != [] then rest else CreateQuestionQueue(questions, stats, picks)
  }

  class Store {
    /** Whether the code runs in a browser, where storage exists. */
    const browser: bool
    var questions: seq<Question>
    var stats: Stats
    var questionQueue: seq<Question>
    var currentQuestion: Option<Question>
    /** The `quiz_stats` key of browser storage: `None` when the key is
        absent. Serialisation to and from JSON is not modelled. */
    var persisted: Option<Stats>

    /** `loadStats`: the saved stats, or no stats outside a browser or when
        nothing has been saved. */
    function LoadStats(): (r: Stats)
      reads this
    {
      if browser && persisted.Some? then persisted.value else map[]
    }

    /** The invariant every store operation keeps. The current question is
        null exactly when no questions are loaded, the queue is empty exactly
        then too, the queue and the current question only ever hold loaded
        questions, every stats entry is one the store could have written, and
        in a browser the stats in memory are always what storage would give
        back. */
    ghost predicate Valid()
      reads this
    {
      && (currentQuestion.None? <==> questions == [])
      && (questionQueue == [] <==> questions == [])
      && (forall q :: q in questionQueue ==> q in questions)
      && (currentQuestion.Some? ==> currentQuestion.value in questions)
      && StatsWellFormed(stats)
      && (browser ==> stats == LoadStats())
    }

    /** The current question is the head of the queue. Loading and answering
        establish this; clearing the stats does not keep it. */
    ghost predicate AtHead()
      reads this
    {
      currentQuestion == Head(questionQueue)
    }

    /** `createQuizStore`, with `stored` the contents of browser storage at
        the time it is called. */
    constructor (browser: bool, stored: Option<Stats>)
      requires browser && stored.Some? ==> StatsWellFormed(stored.value)
      ensures Valid() && AtHead()
      ensures this.browser == browser && persisted == stored
      ensures questions == [] && questionQueue == [] && currentQuestion == None
      ensures stats == LoadStats()
    {
      this.browser := browser;
      persisted := stored;
      questions := [];
      stats := if browser && stored.Some? then stored.value else map[];
      questionQueue := [];
      currentQuestion := None;
    }

    /** `loadQuizzes(qs)`: the queue is rebuilt from `qs` and the stats, and
        the current question becomes its head. `picks` stands for the random
        numbers the shuffle draws. */
    method LoadQuizzes(qs: seq<Question>, picks: seq<nat>)
      requires Valid()
      modifies this
      ensures Valid() && AtHead()
      ensures questions == qs
      ensures questionQueue == CreateQuestionQueue(qs, old(stats), picks)
      ensures currentQuestion.None? <==> qs == []
      ensures |qs| <= |questionQueue| <= 5 * |qs|
      ensures stats == old(stats) && persisted == old(persisted)
    {
      var queue := CreateQuestionQueue(qs, stats, picks);
      QueueShape(qs, stats, picks);
      QueueLength(qs, stats, picks);
      questions := qs;
      questionQueue := queue;
      currentQuestion := Head(queue);
    }

    /** `answerQuestion(answer)`. Without a current question nothing
        changes. Otherwise the answer is recorded for the current question,
        the head of the queue is dropped, the queue is rebuilt with the new
        stats only if that leaves it empty, the current question becomes the
        new head, and the new stats are saved. */
    method AnswerQuestion(answer: string, picks: seq<nat>)
      requires Valid()
      modifies this
      ensures Valid()
      ensures browser ==> LoadStats() == stats
      ensures old(currentQuestion).None? ==>
                && questions == old(questions) && stats == old(stats)
                && questionQueue == old(questionQueue)
                && currentQuestion == old(currentQuestion)
                && persisted == old(persisted)
      ensures old(currentQuestion).Some? ==>
                var answered := old(currentQuestion).value;
                && questions == old(questions)
                && Recorded(old(stats), stats, answered.id, answer == answered.correctAnswer)
                && questionQueue == NextQueue(questions, old(questionQueue), stats, picks)
                && (old(|questionQueue|) > 1 ==> |questionQueue| == old(|questionQueue|) - 1)
                && (old(|questionQueue|) == 1 ==> |questions| <= |questionQueue| <= 5 * |questions|)
                && AtHead()
                && currentQuestion.Some?
                && persisted == (if browser then Some(stats) else old(persisted))
    {
      if currentQuestion.None? {
        return;
      }
      var answered := currentQuestion.value;
      var isCorrect := answer == answered.correctAnswer;
      var newStats := UpdateStats(stats, answered.id, isCorrect);
      var finalQueue := NextQueue(questions, questionQueue, newStats, picks);
      if browser {
        persisted := Some(newStats);
      }
      stats := newStats;
      questionQueue := finalQueue;
      currentQuestion := Head(finalQueue);
    }

    /** `resetQuiz()`: unloads the questions and the queue, and takes the
        stats back from storage. */
    method ResetQuiz()
      requires Valid()
      modifies this
      ensures Valid() && AtHead()
      ensures questions == [] && questionQueue == [] && currentQuestion == None
      ensures stats == old(LoadStats()) && persisted == old(persisted)
      ensures browser ==> stats == old(stats)
    {
      questions := [];
      stats := LoadStats();
      questionQueue := [];
      currentQuestion := None;
    }

    /** `clearStats()`: removes the saved stats, empties the stats in memory
        and rebuilds the queue, so every question gets weight 5. The loaded
        questions and the current question stay as they were. */
    method ClearStats(picks: seq<nat>)
      requires Valid()
      modifies this
      ensures Valid()
      ensures stats == map[]
      ensures persisted == (if browser then None else old(persisted))
      ensures browser ==> LoadStats() == stats
      ensures questionQueue == CreateQuestionQueue(questions, map[], picks)
      ensures |questionQueue| == 5 * |questions|
      ensures questions == old(questions) && currentQuestion == old(currentQuestion)
    {
      if browser {
        persisted := None;
      }
      var queue := CreateQuestionQueue(questions, map[], picks);
      QueueShape(questions, map[], picks);
      ClearedTotal(questions);
      assert queue == [] <==> questions == [];
      assert forall q :: q in queue ==> q in questions;
      stats := map[];
      questionQueue := queue;
    }
  }
}
