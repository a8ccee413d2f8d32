/** The weighted question queue of the quiz store
    (src/lib/stores/quizStore.js, `createQuestionQueue`): every question is
    repeated according to how poorly it has been answered so far, and the
    resulting list is shuffled. */
module QuestionQueue {
  import opened QuizStats

  function Max(a: int, b: int): int
  {
    if a < b then b else a
  }

  /** `stats[q.id]?.successRate || 0`: a question without an entry reads as
      rate 0. */
  function RateOf(stats: Stats, id: QuestionId): real
  {
    if id in stats then stats[id].successRate else 0.0
  }

  /** `Math.max(1, 5 - Math.floor(successRate * 5))`, on exact reals. */
  function WeightOfRate(rate: real): int
  {
    Max(1, 5 - (rate * 5.0).Floor)
  }

  /** The number of copies of a question with id `id` in the queue. */
  function Weight(stats: Stats, id: QuestionId): nat
  {
    WeightOfRate(RateOf(stats, id))
  }

  /** `Array(n).fill(q)`. */
  function Copies(q: Question, n: nat): seq<Question>
  {
    seq(n, _ => q)
  }

  /** The `flatMap` step: each question replaced by its weight's worth of
      copies, in the order of `qs`. */
  function Expand(qs: seq<Question>, stats: Stats): seq<Question>
  {
    if qs == [] then []
    else Copies(qs[0], Weight(stats, qs[0].id)) + Expand(qs[1..], stats)
  }

  /** The sum of the weights of `qs`. */
  function TotalWeight(qs: seq<Question>, stats: Stats): nat
  {
    if qs == [] then 0 else Weight(stats, qs[0].id) + TotalWeight(qs[1..], stats)
  }

  /** The shuffle, driven by the random choices `picks`: the next element of
      the output is the one at position `picks[0] % |s|` of what is left. The
      source sorts with a random comparator; the lemmas below show that the
      outputs this function can produce, over all `picks`, are exactly the
      permutations of `s`. */
  function Shuffle<T>(s: seq<T>, picks: seq<nat>): seq<T>
    decreases |s|
  {
    if s == [] then []
    else
      var i := if picks == [] then 0 else picks[0] % |s|;
      [s[i]] + Shuffle(s[..i] + s[i + 1..], if picks == [] then [] else picks[1..])
  }

  /** `createQuestionQueue(questions, stats)`, with `picks` standing for the
      values `Math.random` returns. */
  function CreateQuestionQueue(qs: seq<Question>, stats: Stats, picks: seq<nat>): seq<Question>
  {
    Shuffle(Expand(qs, stats), picks)
  }

  /** Whatever the random choices, the shuffle only reorders: its output is
      a permutation of its input. */
  lemma {:induction false} ShufflePermutes<T>(s: seq<T>, picks: seq<nat>)
    ensures multiset(Shuffle(s, picks)) == multiset(s)
    decreases |s|
  {
    if s != [] {
      var i := if picks == [] then 0 else picks[0] % |s|;
      ShufflePermutes(s[..i] + s[i + 1..], if picks == [] then [] else picks[1..]);
      RemoveAt(s, i);
    }
  }

  /** The queue is a permutation of the expanded list of questions. */
  lemma QueueIsPermutation(qs: seq<Question>, stats: Stats, picks: seq<nat>)
    ensures multiset(CreateQuestionQueue(qs, stats, picks)) == multiset(Expand(qs, stats))
  {
    ShufflePermutes(Expand(qs, stats), picks);
  }

  /** Every permutation of `s` is an outcome of the shuffle for some random
      choices: the model does not rule out any order the source can produce. */
  lemma {:induction false} ShuffleReaches<T>(s: seq<T>, t: seq<T>) returns (picks: seq<nat>)
    requires multiset(t) == multiset(s)
    ensures Shuffle(s, picks) == t
    decreases |s|
  {
    if s == [] {
      assert t == [] by {
        assert |t| == |multiset(t)| == 0;
      }
      picks := [];
    } else {
      var i := MatchHead(s, t);
      var more := ShuffleReaches(s[..i] + s[i + 1..], t[1..]);
      picks := [i] + more;
      ShuffleStep(s, i, more);
      assert t == [t[0]] + t[1..];
    }
  }

  /** Every ordering of the expanded questions is a queue the store can
      build, for some random choices. */
  lemma QueueReachesEveryOrder(qs: seq<Question>, stats: Stats, t: seq<Question>) returns (picks: seq<nat>)
    requires multiset(t) == multiset(Expand(qs, stats))
    ensures CreateQuestionQueue(qs, stats, picks) == t
  {
    picks := ShuffleReaches(Expand(qs, stats), t);
  }

  /** When `t` is a non-empty permutation of `s`, its head sits at some
      position `i` of `s`, and what is left of `s` without that position is a
      permutation of the rest of `t`. */
  lemma MatchHead<T>(s: seq<T>, t: seq<T>) returns (i: nat)
    requires s != [] && multiset(t) == multiset(s)
    ensures i < |s| && |t| == |s| && s[i] == t[0]
    ensures multiset(t[1..]) == multiset(s[..i] + s[i + 1..])
  {
    assert |t| == |s| by {
      assert |t| == |multiset(t)| && |s| == |multiset(s)|;
    }
    assert t[0] in s by {
      assert t[0] in multiset(t);
    }
    i :| i < |s| && s[i] == t[0];
    assert multiset(t[1..]) == multiset(s[..i] + s[i + 1..]) by {
      RemoveAt(s, i);
      RemoveAt(t, 0);
      assert t[..0] + t[1..] == t[1..];
    }
  }

  /** One step of the shuffle with the pick `i` in range. */
  lemma ShuffleStep<T>(s: seq<T>, i: nat, more: seq<nat>)
    requires i < |s|
    ensures Shuffle(s, [i] + more) == [s[i]] + Shuffle(s[..i] + s[i + 1..], more)
  {
    ModSmall(i, |s|);
    assert ([i] + more)[1..] == more;
  }

  lemma ModSmall(i: int, n: int)
    requires 0 <= i < n
    ensures i % n == i
  {
  }

  lemma PositiveProduct(n: nat, w: nat)
    requires 1 <= w
    ensures 0 < n * w <==> 0 < n
  {
  }

  lemma MulSucc(n: int, w: int)
    ensures (n + 1) * w == n * w + w
  {
  }

  /** Taking out the element at position `i` takes one copy of it out of the
      multiset. */
  lemma RemoveAt<T>(s: seq<T>, i: nat)
    requires i < |s|
    ensures multiset(s[..i] + s[i + 1..]) == multiset(s) - multiset{s[i]}
  {
    assert s == s[..i] + [s[i]] + s[i + 1..];
  }

  /** A question occurs in the expansion exactly its weight times for each
      time it occurs in `qs`. */
  lemma {:induction false} ExpandCount(qs: seq<Question>, stats: Stats, q: Question)
    ensures multiset(Expand(qs, stats))[q] == multiset(qs)[q] * Weight(stats, q.id)
  {
    if qs != [] {
      var w, n := Weight(stats, q.id), multiset(qs[1..])[q];
      ExpandCount(qs[1..], stats, q);
      CopiesCount(qs[0], Weight(stats, qs[0].id), q);
      assert multiset(qs)[q] == n + (if qs[0] == q then 1 else 0) by {
        assert qs == [qs[0]] + qs[1..];
      }
      MulSucc(n, w);
    }
  }

  lemma {:induction false} CopiesCount(p: Question, n: nat, q: Question)
    ensures multiset(Copies(p, n))[q] == if p == q then n else 0
  {
    if n > 0 {
      CopiesCount(p, n - 1, q);
      assert Copies(p, n) == Copies(p, n - 1) + [p];
    }
  }

  /** The expansion is as long as the sum of the weights. */
  lemma {:induction false} ExpandLength(qs: seq<Question>, stats: Stats)
    ensures |Expand(qs, stats)| == TotalWeight(qs, stats)
  {
    if qs != [] {
      ExpandLength(qs[1..], stats);
    }
  }

  /** Every question gets at least one copy, so the sum of the weights is at
      least the number of questions; when every rate lies in [0, 1] (as for
      entries the store writes itself) it is at most five per question. */
  lemma {:induction false} TotalWeightBounds(qs: seq<Question>, stats: Stats)
    ensures |qs| <= TotalWeight(qs, stats)
    ensures (forall k :: k in stats ==> 0.0 <= stats[k].successRate <= 1.0) ==>
              TotalWeight(qs, stats) <= 5 * |qs|
  {
    if qs != [] {
      TotalWeightBounds(qs[1..], stats);
      WeightTiers(RateOf(stats, qs[0].id));
    }
  }

  /** Each question of `qs` appears in the queue its weight times per
      occurrence in `qs`, and nothing else appears in it. */
  lemma QueueCount(qs: seq<Question>, stats: Stats, picks: seq<nat>, q: Question)
    ensures multiset(CreateQuestionQueue(qs, stats, picks))[q] == multiset(qs)[q] * Weight(stats, q.id)
    ensures q in CreateQuestionQueue(qs, stats, picks) <==> q in qs
  {
    var queue := CreateQuestionQueue(qs, stats, picks);
    QueueIsPermutation(qs, stats, picks);
    ExpandCount(qs, stats, q);
    PositiveProduct(multiset(qs)[q], Weight(stats, q.id));
    assert q in queue <==> q in multiset(queue);
    assert q in qs <==> q in multiset(qs);
  }

  /** The queue built from `qs` is as long as the sum of the weights, made
      only of questions of `qs`, holds every question of `qs`, and is empty
      exactly when `qs` is. */
  lemma QueueShape(qs: seq<Question>, stats: Stats, picks: seq<nat>)
    ensures |CreateQuestionQueue(qs, stats, picks)| == TotalWeight(qs, stats)
    ensures forall q :: q in CreateQuestionQueue(qs, stats, picks) <==> q in qs
    ensures CreateQuestionQueue(qs, stats, picks) == [] <==> qs == []
  {
    var queue := CreateQuestionQueue(qs, stats, picks);
    QueueIsPermutation(qs, stats, picks);
    ExpandLength(qs, stats);
    TotalWeightBounds(qs, stats);
    assert |queue| == |multiset(queue)| == |multiset(Expand(qs, stats))| == |Expand(qs, stats)|;
    forall q
      ensures q in queue <==> q in qs
    {
      QueueCount(qs, stats, picks, q);
    }
  }

  /** The queue is at least as long as `qs` and, when every entry is one
      the store wrote itself, at most five times as long. */
  lemma QueueLength(qs: seq<Question>, stats: Stats, picks: seq<nat>)
    ensures |qs| <= |CreateQuestionQueue(qs, stats, picks)|
    ensures StatsWellFormed(stats) ==> |CreateQuestionQueue(qs, stats, picks)| <= 5 * |qs|
  {
    QueueShape(qs, stats, picks);
    TotalWeightBounds(qs, stats);
    if StatsWellFormed(stats) {
      forall k | k in stats
        ensures 0.0 <= stats[k].successRate <= 1.0
      {
        RateInUnit(stats[k]);
      }
    }
  }

  /** Every question of `qs` gets at least one copy per occurrence and,
      when every entry is one the store wrote itself, at most five. */
  lemma QueueCopies(qs: seq<Question>, stats: Stats, picks: seq<nat>, q: Question)
    ensures multiset(qs)[q] <= multiset(CreateQuestionQueue(qs, stats, picks))[q]
    ensures StatsWellFormed(stats) ==>
              multiset(CreateQuestionQueue(qs, stats, picks))[q] <= 5 * multiset(qs)[q]
  {
    var n, w := multiset(qs)[q], Weight(stats, q.id);
    QueueCount(qs, stats, picks, q);
    WeightTiers(RateOf(stats, q.id));
    ScaleBounds(n, w, 1);
    if StatsWellFormed(stats) {
      assert w <= 5 by {
        if q.id in stats {
          RateInUnit(stats[q.id]);
        }
      }
      ScaleBounds(n, w, 5);
    }
  }

  lemma ScaleBounds(n: nat, w: int, bound: int)
    requires 1 <= w
    ensures n <= n * w
    ensures w <= bound ==> n * w <= bound * n
  {
  }

  /** With no stats every question has weight 5: the queue holds five copies
      of each question per occurrence in `qs`. */
  lemma ClearedQueue(qs: seq<Question>, picks: seq<nat>, q: Question)
    ensures multiset(CreateQuestionQueue(qs, map[], picks))[q] == 5 * multiset(qs)[q]
    ensures |CreateQuestionQueue(qs, map[], picks)| == 5 * |qs|
  {
    assert Weight(map[], q.id) == 5 by {
      WeightExtremes(map[], q.id);
    }
    QueueCount(qs, map[], picks, q);
    QueueShape(qs, map[], picks);
    ClearedTotal(qs);
  }

  lemma {:induction false} ClearedTotal(qs: seq<Question>)
    ensures TotalWeight(qs, map[]) == 5 * |qs|
  {
    if qs != [] {
      WeightExtremes(map[], qs[0].id);
      ClearedTotal(qs[1..]);
    }
  }

  /** The five tiers of the weight for a rate in [0, 1]: between 1 and 5,
      exactly 5 below one fifth (so for no entry or rate 0) and exactly 1
      from four fifths on (so for rate 1). */
  lemma WeightTiers(rate: real)
    ensures 1 <= WeightOfRate(rate)
    ensures 0.0 <= rate <= 1.0 ==> WeightOfRate(rate) <= 5
    ensures 0.0 <= rate ==> (WeightOfRate(rate) == 5 <==> rate < 0.2)
    ensures WeightOfRate(rate) == 1 <==> 0.8 <= rate
  {
  }

  /** A question with no entry, or with rate 0, gets 5 copies; one with rate
      1 gets a single copy. */
  lemma WeightExtremes(stats: Stats, id: QuestionId)
    ensures id !in stats ==> Weight(stats, id) == 5
    ensures RateOf(stats, id) == 0.0 ==> Weight(stats, id) == 5
    ensures RateOf(stats, id) == 1.0 ==> Weight(stats, id) == 1
  {
  }

  /** The weight never increases as the rate increases. */
  lemma WeightAntitone(r1: real, r2: real)
    requires r1 <= r2
    ensures WeightOfRate(r2) <= WeightOfRate(r1)
  {
  }

  /** For an entry the store wrote itself, the weight needs no reals:
      `max(1, 5 - (5 * correct) / attempts)` in integer division. */
  lemma WeightFromCounts(e: StatEntry)
    requires WellFormed(e)
    ensures WeightOfRate(e.successRate) == Max(1, 5 - (5 * e.correct) / e.attempts)
  {
    RateFloor(e.attempts, e.correct, e.successRate);
  }

  /** `floor(c / a * 5)` computed in exact reals equals `(5 * c) / a` in
      integer division. */
  lemma RateFloor(a: nat, c: nat, rate: real)
    requires 1 <= a && rate == c as real / a as real
    ensures (rate * 5.0).Floor == (5 * c) / a
  {
    var q := (5 * c) / a;
    DivMod(5 * c, a);
    CastMul(q, a);
    CastMul(q + 1, a);
    var ar, y := a as real, (5 * c) as real;
    ScaleDiv(c as real, ar);
    LowerByDivision(q as real, y, ar);
    UpperByDivision((q + 1) as real, y, ar);
    FloorUnique(rate * 5.0, q);
  }

  lemma FloorUnique(x: real, q: int)
    requires q as real <= x < q as real + 1.0
    ensures x.Floor == q
  {
  }

  lemma LowerByDivision(lo: real, y: real, d: real)
    requires 0.0 < d && lo * d <= y
    ensures lo <= y / d
  {
  }

  lemma UpperByDivision(hi: real, y: real, d: real)
    requires 0.0 < d && y < hi * d
    ensures y / d < hi
  {
  }

  lemma DivMod(n: nat, a: nat)
    requires 0 < a
    ensures (n / a) * a <= n < (n / a + 1) * a
  {
  }

  lemma CastMul(x: int, y: int)
    ensures (x * y) as real == x as real * y as real
  {
  }

  lemma ScaleDiv(c: real, a: real)
    requires 0.0 < a
    ensures c / a * 5.0 == (5.0 * c) / a
  {
  }
}
