/** Questions and the per-question answer statistics kept by the quiz store
    (src/lib/stores/quizStore.js, `updateStats`). */
module QuizStats {

  /** Identifier of a question, unique within a loaded quiz. */
  type QuestionId = string

  /** A question as the store sees it: its id and the answer that counts as
      right. The rest of a question's payload is never inspected. */
  datatype Question = Question(id: QuestionId, correctAnswer: string)

  /** One entry of the stats map. The store keeps the success rate as a field
      of its own, beside the two counters it is computed from. */
  datatype StatEntry = StatEntry(attempts: nat, correct: nat, successRate: real)

  /** The stats map, keyed by question id. */
  type Stats = map<QuestionId, StatEntry>

  /** The entry an unanswered question starts from: no attempts, none right. */
  const Unanswered := StatEntry(0, 0, 0.0)

  /** The entry `updateStats` starts from for `id`. */
  function Prior(stats: Stats, id: QuestionId): StatEntry
  {
    if id in stats then stats[id] else Unanswered
  }

  /** An entry as the store itself writes it: at least one attempt, no more
      right answers than attempts, and the rate equal to their exact ratio. */
  ghost predicate WellFormed(e: StatEntry)
  {
    && 1 <= e.attempts
    && e.correct <= e.attempts
    && e.successRate == e.correct as real / e.attempts as real
  }

  /** Every entry of the map is one the store could have written. */
  ghost predicate StatsWellFormed(stats: Stats)
  {
    forall k :: k in stats ==> WellFormed(stats[k])
  }

  /** An entry the store wrote has its rate in [0, 1]. */
  lemma RateInUnit(e: StatEntry)
    requires WellFormed(e)
    ensures 0.0 <= e.successRate <= 1.0
  {
    var a, c := e.attempts as real, e.correct as real;
    assert c / a <= 1.0 by {
      assert c <= a;
      assert c / a * a == c;
    }
  }

  /** `after` is `before` with one more answer to `id` recorded: the attempts
      of `id` rise by one, its right answers rise by one exactly when the
      answer was right, its rate is recomputed, and no other entry changes. */
  ghost predicate Recorded(before: Stats, after: Stats, id: QuestionId, isCorrect: bool)
  {
    && after.Keys == before.Keys + {id}
    && (forall k :: k in before && k != id ==> after[k] == before[k])
    && id in after
    && after[id].attempts == Prior(before, id).attempts + 1
    && after[id].correct == Prior(before, id).correct + (if isCorrect then 1 else 0)
    && after[id].successRate == after[id].correct as real / after[id].attempts as real
  }

  /** `updateStats`: records one answer to `id`. The source mutates the entry
      object field by field and then copies the map with that entry in it. */
  method UpdateStats(stats: Stats, id: QuestionId, isCorrect: bool) returns (r: Stats)
    ensures Recorded(stats, r, id, isCorrect)
    ensures id in r && 1 <= r[id].attempts
    ensures (id !in stats || WellFormed(stats[id])) ==> WellFormed(r[id])
    ensures StatsWellFormed(stats) ==> StatsWellFormed(r)
  {
    var entry := if id in stats then stats[id] else Unanswered;
    entry := entry.(attempts := entry.attempts + 1);
    if isCorrect {
      entry := entry.(correct := entry.correct + 1);
    }
    entry := entry.(successRate := entry.correct as real / entry.attempts as real);
    r := stats[id := entry];
  }

  /** Recording an answer is deterministic: the update is fully pinned down
      by the old map, the id and whether the answer was right. */
  lemma RecordedIsUnique(before: Stats, a: Stats, b: Stats, id: QuestionId, isCorrect: bool)
    requires Recorded(before, a, id, isCorrect)
    requires Recorded(before, b, id, isCorrect)
    ensures a == b
  {
  }

  /** The number of `true`s in `bs`: the right answers of a series. */
  function CountTrue(bs: seq<bool>): (n: nat)
    ensures n <= |bs|
  {
    if bs == [] then 0 else CountTrue(bs[..|bs| - 1]) + (if bs[|bs| - 1] then 1 else 0)
  }

  /** A series of answers to `id`: `m[i + 1]` is `m[i]` with the answer
      `bs[i]` recorded. Afterwards the attempts have grown by the number of
      answers, the right answers by the number of right ones, the rate is
      their exact ratio, and every other entry is as it was. */
  lemma {:induction false} RecordedSeries(m: seq<Stats>, id: QuestionId, bs: seq<bool>)
    requires |m| == |bs| + 1
    requires forall i :: 0 <= i < |bs| ==> Recorded(m[i], m[i + 1], id, bs[i])
    ensures Prior(m[|bs|], id).attempts == Prior(m[0], id).attempts + |bs|
    ensures Prior(m[|bs|], id).correct == Prior(m[0], id).correct + CountTrue(bs)
    ensures bs != [] ==>
              && id in m[|bs|]
              && m[|bs|][id].successRate == m[|bs|][id].correct as real / m[|bs|][id].attempts as real
    ensures forall k :: k in m[0] && k != id ==> k in m[|bs|] && m[|bs|][k] == m[0][k]
    ensures m[|bs|].Keys == m[0].Keys + (if bs == [] then {} else {id})
  {
    if bs != [] {
      var n := |bs| - 1;
      RecordedSeries(m[..n + 1], id, bs[..n]);
      assert Recorded(m[n], m[n + 1], id, bs[n]);
    }
  }

  /** Starting from a question without an entry, N answers of which C were
      right leave the entry `StatEntry(N, C, C / N)`. */
  lemma AnswersFromScratch(m: seq<Stats>, id: QuestionId, bs: seq<bool>)
    requires |m| == |bs| + 1 && bs != []
    requires id !in m[0]
    requires forall i :: 0 <= i < |bs| ==> Recorded(m[i], m[i + 1], id, bs[i])
    ensures id in m[|bs|]
    ensures m[|bs|][id] == StatEntry(|bs|, CountTrue(bs), CountTrue(bs) as real / |bs| as real)
  {
    RecordedSeries(m, id, bs);
  }
}
