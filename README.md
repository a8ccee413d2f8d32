# Adaptive quiz store, modelled in Dafny

This project models the quiz store of `src/lib/stores/quizStore.js`. The store is one state cell holding the loaded
questions, a per-question stats map, a weighted question queue and the current question. The stats map is also saved
in browser storage under the key `quiz_stats`. The model has three modules:

- `QuizStats` (`quiz_stats.dfy`): questions, stat entries and `updateStats`. An entry keeps `attempts`, `correct` and
  the stored `successRate`. `UpdateStats` updates a local copy of the entry field by field, as the source mutates its
  entry object, and then puts it into a copy of the map. The predicate `Recorded` states what one recorded answer does
  to the map.
- `QuestionQueue` (`question_queue.dfy`): `createQuestionQueue`. `Weight` is `max(1, 5 - floor(successRate * 5))` on
  exact reals. A question without an entry counts as rate 0. `Expand` is the `flatMap` that repeats each question
  `Weight` times. The random sort becomes `Shuffle(s, picks)`, where `picks` stands for the random numbers drawn. Two
  lemmas show that the outputs of `Shuffle`, over all `picks`, are exactly the permutations of `s`. So the model fixes
  no order and rules out none: `ShufflePermutes` and `ShuffleReaches`.
- `QuizStore` (`quiz_store.dfy`): the object returned by `createQuizStore`, as the class `Store`. Its fields are
  `questions`, `stats`, `questionQueue`, `currentQuestion` and `persisted`, which is the storage key (`None` when the
  key is absent). The constant `browser` says whether storage exists. Each of `LoadQuizzes`, `AnswerQuestion`,
  `ResetQuiz` and `ClearStats` states its whole new state. Each keeps the invariant `Valid()`:
  - the current question is null exactly when no questions are loaded;
  - the queue is empty exactly then too;
  - the queue and the current question hold only loaded questions;
  - every stats entry is one `updateStats` could have written: at least one attempt, no more right answers than
    attempts, and the rate their exact ratio;
  - in a browser, the stats in memory always equal what `loadStats` would read back.

  `AtHead()` says the current question is the head of the queue. `LoadQuizzes` and `AnswerQuestion` establish it.
  `ClearStats` rebuilds the queue but leaves the current question as it was, so it does not keep `AtHead()`. The next
  answer is then credited to the old current question, while the head of the new queue is the element dropped.

Randomness is an input: every operation that builds a queue takes `picks`. Browser storage is the `persisted` field,
and its contents when the store is created are a constructor parameter.

Two operations of `quizStore.js` do less than their names suggest. `resetQuiz` (lines 62-69) does not clear the
stats: it empties the questions and the queue and reads the stats back from storage, which outside a browser gives
an empty map. `clearStats` (lines 70-81) empties the stats and rebuilds the queue from the loaded questions with no
stats, so every question then gets five copies, but it keeps the current question.

## Model

| member | source | states |
|---|---|---|
| `QuizStats.UpdateStats` | src/lib/stores/quizStore.js:95-101 | the answered id's attempts rise by exactly one, starting from 0/0 when it had no entry; its right answers rise by one exactly when the answer was right; its rate becomes right/attempts; every other id keeps its entry; afterwards attempts >= 1, an entry that was well formed (0 <= correct <= attempts, rate the exact ratio) stays so, and a map of well-formed entries stays one |
| `QuizStats.RateInUnit` | src/lib/stores/quizStore.js:99 | the rate `correct / attempts` of an entry the store wrote lies in [0, 1] |
| `QuizStats.RecordedSeries` | src/lib/stores/quizStore.js:95-101 | after a series of answers to one id, its attempts have grown by the number of answers and its right answers by the number of right ones, its rate is their exact ratio, every other entry is unchanged, and no key other than that id is added |
| `QuizStats.AnswersFromScratch` | src/lib/stores/quizStore.js:95-101 | N answers to a question with no entry, C of them right, leave exactly the entry (N, C, C/N) |
| `QuizStats.RecordedIsUnique` | src/lib/stores/quizStore.js:95-101 | the specification of one recorded answer pins down the new map completely: two maps that both satisfy it are equal |
| `QuestionQueue.WeightTiers` | src/lib/stores/quizStore.js:88-89 | every weight is at least 1; for a rate in [0, 1] it is at most 5, it is 5 exactly when the rate is below 1/5, and it is 1 exactly when the rate is at least 4/5 |
| `QuestionQueue.WeightExtremes` | src/lib/stores/quizStore.js:88-89 | a question with no stats entry, or with rate 0, gets weight 5; one with rate 1 gets weight 1 |
| `QuestionQueue.WeightAntitone` | src/lib/stores/quizStore.js:89 | the weight never increases as the success rate increases |
| `QuestionQueue.WeightFromCounts` | src/lib/stores/quizStore.js:89 | for an entry the store wrote, the weight equals `max(1, 5 - (5 * correct) / attempts)` in integer division, with no reals involved |
| `QuestionQueue.RateFloor` | src/lib/stores/quizStore.js:89 | `floor(correct / attempts * 5)` on exact reals equals `(5 * correct) / attempts` on integers |
| `QuestionQueue.CopiesCount` | src/lib/stores/quizStore.js:90 | `Array(n).fill(q)` holds `q` exactly n times and nothing else |
| `QuestionQueue.ExpandCount` | src/lib/stores/quizStore.js:86-91 | after the `flatMap`, each question occurs its weight times for every occurrence in the question list |
| `QuestionQueue.ExpandLength` | src/lib/stores/quizStore.js:86-91 | the expanded list is as long as the sum of the weights |
| `QuestionQueue.TotalWeightBounds` | src/lib/stores/quizStore.js:88-90 | the sum of the weights is at least the number of questions; when every stored rate is in [0, 1] it is at most five times that number |
| `QuestionQueue.ShufflePermutes` | src/lib/stores/quizStore.js:92 | whatever the random choices, the shuffle's output is a permutation of its input |
| `QuestionQueue.ShuffleReaches` | src/lib/stores/quizStore.js:92 | every permutation of the input is the shuffle's output for some random choices |
| `QuestionQueue.QueueIsPermutation` | src/lib/stores/quizStore.js:85-93 | the queue is a permutation of the expanded list of questions |
| `QuestionQueue.QueueReachesEveryOrder` | src/lib/stores/quizStore.js:85-93 | every ordering of the expanded list is a queue that some random choices produce |
| `QuestionQueue.QueueCount` | src/lib/stores/quizStore.js:85-93 | each question occurs in the queue its weight times per occurrence in the list; a question is in the queue exactly when it is in the list |
| `QuestionQueue.QueueShape` | src/lib/stores/quizStore.js:85-93 | the queue is as long as the sum of the weights, holds exactly the questions of the list, and is empty exactly when the list is |
| `QuestionQueue.QueueLength` | src/lib/stores/quizStore.js:85-93 | the queue is at least as long as the list and, when every stats entry is one the store wrote, at most five times as long |
| `QuestionQueue.QueueCopies` | src/lib/stores/quizStore.js:85-93 | each question occurs in the queue at least once per occurrence in the list and, when every stats entry is one the store wrote, at most five times per occurrence |
| `QuestionQueue.ClearedQueue` | src/lib/stores/quizStore.js:78 | the queue built with no stats holds every question five times per occurrence and is five times as long as the list |
| `QuestionQueue.ClearedTotal` | src/lib/stores/quizStore.js:78 | with no stats the weights add up to five per question |
| `QuizStore.NextQueue` | src/lib/stores/quizStore.js:44-49 | the queue after an answer is non-empty whenever questions are loaded and holds only loaded questions; it is one shorter than before when more than the head was left, and otherwise a fresh queue between one and five times as long as the list of questions |
| `QuizStore.Store.constructor` | src/lib/stores/quizStore.js:17-23 | the store starts with no questions, an empty queue, no current question and the stats loaded from storage, and satisfies its invariant |
| `QuizStore.Store.LoadQuizzes` | src/lib/stores/quizStore.js:27-36 | the questions become the given ones; the queue is built from them and the current stats, and is between one and five times as long as `qs` (the one-to-five copies of each question then follow from `QueueCopies` and the invariant); the current question is the queue's head, and null exactly when no questions were given; stats and storage are unchanged; the invariant is kept |
| `QuizStore.Store.AnswerQuestion` | src/lib/stores/quizStore.js:38-61 | without a current question nothing changes, storage included; otherwise the answer is recorded for the current question only, the queue loses exactly its head and is rebuilt with the new stats, between one and five times as long as the list of questions, only if it ran dry, the current question is the new head and is never null, and in a browser storage then holds exactly the new stats, so loading them gives back the stats in memory; the invariant is kept |
| `QuizStore.Store.ResetQuiz` | src/lib/stores/quizStore.js:62-69 | questions and queue are emptied, the current question becomes null, and the stats become what `loadStats` reads (empty outside a browser), so in a browser they stay as they were; storage is unchanged |
| `QuizStore.Store.ClearStats` | src/lib/stores/quizStore.js:70-81 | the stats become empty and, in a browser, the storage key is removed, so loading gives the empty stats back; the queue is rebuilt from the loaded questions with no stats and is five times as long as the list; the questions and the current question are untouched; the invariant is kept |

## Left out

- Svelte's `writable`, `subscribe`, `set` and `update` are not modelled. Each store method assigns the fields of one object instead.
- JSON serialisation of the stats is not modelled. `persisted` holds the map itself, and a saved map is assumed to read back unchanged. Entries whose counters are not non-negative integers, and entries without a `successRate` field, are not modelled.
- IEEE double arithmetic is not modelled. The rate and `Math.floor(successRate * 5)` are computed on exact reals. The counters `attempts` and `correct` are doubles in the source too, so `attempts++` stops growing at 2^53; the model's `nat` counters have no such limit.
- The distribution of `Math.random` and of the comparator-based sort is not modelled. Only the set of reachable queues is modelled, and it is exactly the permutations of the expanded list.
- Aliasing of the mutated entry is not modelled. `updateStats` mutates the entry object of the old stats map in place, so a subscriber holding the previous state would see the change. The model works on values.
- `answerQuestion` compares `answer` and `correct_answer` with `===`. The model compares strings only, so answers of other types are not modelled.
- The module-level singleton `quizStore` is not modelled. The model can create any number of `Store` objects.
- Ids that name members of `Object.prototype` are not modelled. The source keeps the stats in a plain object, so for an id such as `constructor`, `stats[questionId]` (line 96) finds an inherited value instead of no entry. The counters of that value become NaN, and the weight stays 5 through `NaN || 0` (line 88). For `__proto__`, lines 97-99 write the counters onto `Object.prototype` itself. The model treats every id as an ordinary key.
- Exceptions from storage are not modelled. `localStorage.setItem` (line 14, called at line 52) can throw, for example when the quota is exceeded. The throw aborts the `update`, so the new state is discarded. An existing entry has already been mutated in place by lines 97-99, so its counters change while the queue does not advance. For a question's first answer, line 96 made a fresh entry that only the discarded map holds, so the state stays as it was. `JSON.parse` (line 9) throws on a malformed saved value, both when the store is created and in `resetQuiz`.
- Other writers of the `quiz_stats` key, such as another tab, are not modelled. `persisted` changes only through the store's own operations. Two claims rely on this: the invariant's "in a browser the stats in memory equal what storage gives back", and `ResetQuiz`'s "in a browser the stats stay as they were".
- QuizStore.Store.constructor: requires that the saved stats, in a browser, hold only entries the store could have written. The source reads back whatever the key holds. Saved values the store did not write come from outside the model, as the two lines above say.
