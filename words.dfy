/**
 * `src/lib/words.ts`: the weighted ("roulette wheel") choice of the next
 * word and the overall summary of the ledger.
 */
module Words {
  import opened Wrappers
  import opened Stats

  /**
   * The score of one candidate: 200 when it was never attempted, otherwise
   * `incorrect / total * 100 + 1`, so that more mistakes mean a larger share.
   */
  function Score(rec: Option<Record>): (w: real)
    ensures w > 0.0
    ensures rec.None? || rec.value.total == 0 ==> w == 200.0
    ensures rec.Some? && 0 < rec.value.total && rec.value.incorrect <= rec.value.total ==> 1.0 <= w <= 101.0
  {
    if rec.Some? && rec.value.total > 0 then
      ScoreBounds(rec.value.incorrect, rec.value.total);
      (rec.value.incorrect as real / rec.value.total as real) * 100.0 + 1.0
    else 200.0
  }

  lemma ScoreBounds(incorrect: nat, total: nat)
    requires total > 0
    ensures 0.0 <= incorrect as real / total as real
    ensures incorrect <= total ==> incorrect as real / total as real <= 1.0
  {
  }

  /** A record that was never wrong has the floor score 1. */
  lemma AllCorrectScoresOne(correct: nat)
    requires correct > 0
    ensures Score(Some(Record(correct, 0, correct))) == 1.0
  {
  }

  /** A record that was never right has the ceiling score 101. */
  lemma AllWrongScoresCeiling(incorrect: nat)
    requires incorrect > 0
    ensures Score(Some(Record(0, incorrect, incorrect))) == 101.0
  {
    assert incorrect as real / incorrect as real == 1.0;
  }

  /** For a fixed number of attempts, more mistakes give a strictly larger score. */
  lemma ScoreGrowsWithMistakes(c1: nat, i1: nat, c2: nat, i2: nat, total: nat)
    requires total > 0 && i1 < i2
    ensures Score(Some(Record(c1, i1, total))) < Score(Some(Record(c2, i2, total)))
  {
    assert i1 as real / total as real < i2 as real / total as real;
  }

  /** Every attempted, consistent record scores strictly below a never-attempted one. */
  lemma AttemptedBelowNew(rec: Record)
    requires rec.total > 0 && rec.total == rec.correct + rec.incorrect
    ensures Score(Some(rec)) < Score(None)
  {
  }

  /** The `wordsWithScore` scores, in candidate order. */
  function Weights<T, K>(words: seq<T>, key: T -> K, stats: map<K, Record>): (ws: seq<real>)
    ensures |ws| == |words|
    ensures forall i :: 0 <= i < |ws| ==> ws[i] == Score(Get(stats, key(words[i]))) && ws[i] > 0.0
  {
    seq(|words|, i requires 0 <= i < |words| => Score(Get(stats, key(words[i]))))
  }

  /** The `reduce` sum of a sequence of scores. */
  function Sum(ws: seq<real>): real
  {
    if ws == [] then 0.0 else ws[0] + Sum(ws[1..])
  }

  lemma {:induction false} SumSnoc(ws: seq<real>, x: real)
    ensures Sum(ws + [x]) == Sum(ws) + x
  {
    if ws != [] {
      assert (ws + [x])[1..] == ws[1..] + [x];
      SumSnoc(ws[1..], x);
    }
  }

  lemma {:induction false} SumPositive(ws: seq<real>)
    requires ws != []
    requires forall i :: 0 <= i < |ws| ==> ws[i] > 0.0
    ensures Sum(ws) > 0.0
  {
    if |ws| > 1 {
      SumPositive(ws[1..]);
    }
  }

  /** `currentScore` after adding the score at position `j`: `ws[0] + ... + ws[j]`. */
  function RunningSum(ws: seq<real>, j: nat): real
    requires j < |ws|
  {
    Sum(ws[..j + 1])
  }

  /**
   * The position the roulette walk stops at: the first `i` whose running sum
   * `ws[0] + ... + ws[i]` reaches `target`, or `|ws|` when none does.
   */
  function FirstReach(ws: seq<real>, target: real): (i: nat)
    ensures i <= |ws|
  {
    if ws == [] then 0
    else if ws[0] >= target then 0
    else 1 + FirstReach(ws[1..], target - ws[0])
  }

  /** Folding the first score into the running sums of the rest. */
  lemma RunningSumShift(ws: seq<real>, j: nat)
    requires 0 < j < |ws|
    ensures RunningSum(ws, j) == ws[0] + RunningSum(ws[1..], j - 1)
  {
    assert ws[..j + 1][1..] == ws[1..][..j - 1 + 1];
  }

  /** `FirstReach` is the first position whose running sum reaches the target. */
  lemma {:induction false} FirstReachIsFirst(ws: seq<real>, target: real)
    ensures FirstReach(ws, target) < |ws| ==> RunningSum(ws, FirstReach(ws, target)) >= target
    ensures forall j :: 0 <= j < FirstReach(ws, target) ==> RunningSum(ws, j) < target
  {
    if ws != [] {
      assert ws[..1] == [ws[0]];
      assert Sum([ws[0]]) == ws[0] + Sum([]);
      if ws[0] < target {
        var rest := ws[1..];
        var t := target - ws[0];
        FirstReachIsFirst(rest, t);
        var i := FirstReach(ws, target);
        if i < |ws| {
          RunningSumShift(ws, i);
        }
        forall j | 0 < j < i ensures RunningSum(ws, j) < target {
          RunningSumShift(ws, j);
        }
      }
    }
  }

  /** Any position with the defining property of `FirstReach` is `FirstReach`. */
  lemma FirstReachUnique(ws: seq<real>, target: real, i: nat)
    requires i <= |ws|
    requires i < |ws| ==> RunningSum(ws, i) >= target
    requires forall j :: 0 <= j < i ==> RunningSum(ws, j) < target
    ensures i == FirstReach(ws, target)
  {
    FirstReachIsFirst(ws, target);
  }

  /** When the target does not exceed the total, the walk stops inside the list. */
  lemma FirstReachInside(ws: seq<real>, target: real)
    requires ws != [] && target <= Sum(ws)
    ensures FirstReach(ws, target) < |ws|
  {
    FirstReachIsFirst(ws, target);
    assert ws[..|ws| - 1 + 1] == ws;
  }

  /** `randomScore`: the draw `u` of `Math.random()` scaled to the total score. */
  function RandomScore(ws: seq<real>, u: real): real
  {
    u * Sum(ws)
  }

  lemma NonNegativeProduct(a: real, b: real)
    requires a >= 0.0 && b >= 0.0
    ensures a * b >= 0.0
  {
  }

  /** A draw `u <= 1` of a positive total never overshoots it. */
  lemma DrawWithinTotal(ws: seq<real>, u: real)
    requires ws != [] && u <= 1.0
    requires forall i :: 0 <= i < |ws| ==> ws[i] > 0.0
    ensures FirstReach(ws, RandomScore(ws, u)) < |ws|
  {
    SumPositive(ws);
    NonNegativeProduct(1.0 - u, Sum(ws));
    assert RandomScore(ws, u) <= Sum(ws);
    FirstReachInside(ws, RandomScore(ws, u));
  }

  /**
   * The roulette choice among `words` with scores `ws` when `Math.random()`
   * yields `u`: the candidate the walk stops at, or `words[0]` when the running
   * sum never reaches `u * totalScore`.
   */
  function Pick<T>(words: seq<T>, ws: seq<real>, u: real): (r: T)
    requires words != [] && |ws| == |words|
    ensures r in words
  {
    var i := FirstReach(ws, RandomScore(ws, u));
    if i < |words| then words[i] else words[0]
  }

  /**
   * For every draw `u <= 1` (so for all of `Math.random()`'s range `[0, 1)`) and
   * positive scores the `words[0]` fallback is unreachable: the choice is the
   * first candidate whose running score sum reaches `u * totalScore`.
   */
  lemma PickStopsAtFirstReach<T>(words: seq<T>, ws: seq<real>, u: real) returns (i: nat)
    requires words != [] && |ws| == |words| && u <= 1.0
    requires forall j :: 0 <= j < |ws| ==> ws[j] > 0.0
    ensures i < |words| && Pick(words, ws, u) == words[i]
    ensures RunningSum(ws, i) >= RandomScore(ws, u)
    ensures forall j :: 0 <= j < i ==> RunningSum(ws, j) < RandomScore(ws, u)
  {
    DrawWithinTotal(ws, u);
    i := FirstReach(ws, RandomScore(ws, u));
    FirstReachIsFirst(ws, RandomScore(ws, u));
  }

  /** What `getRandomWord(words, stats)` returns when `Math.random()` yields `u`. */
  function RandomWord<T, K>(words: seq<T>, key: T -> K, stats: map<K, Record>, u: real): (r: Option<T>)
    ensures r.None? <==> words == []
    ensures r.Some? ==> r.value in words
    ensures |words| == 1 ==> r == Some(words[0])
  {
    if words == [] then None else Some(Pick(words, Weights(words, key, stats), u))
  }

  /**
   * With the scores of the ledger, the word chosen for a draw `u <= 1` is the
   * first whose running score sum reaches `u * totalScore`.
   */
  lemma RandomWordStopsAtFirstReach<T, K>(words: seq<T>, key: T -> K, stats: map<K, Record>, u: real)
    returns (i: nat)
    requires words != [] && u <= 1.0
    ensures i < |words| && RandomWord(words, key, stats, u) == Some(words[i])
    ensures var ws := Weights(words, key, stats);
      && RunningSum(ws, i) >= RandomScore(ws, u)
      && forall j :: 0 <= j < i ==> RunningSum(ws, j) < RandomScore(ws, u)
  {
    var ws := Weights(words, key, stats);
    i := PickStopsAtFirstReach(words, ws, u);
  }

  /** An empty candidate list yields null whatever the ledger holds. */
  lemma EmptyIsNull<T, K>(key: T -> K, stats: map<K, Record>, u: real)
    ensures RandomWord([], key, stats, u) == None
  {
  }

  /** `getRandomWord`, with its `for` loop over the running score. */
  method GetRandomWord<T, K>(words: seq<T>, key: T -> K, stats: map<K, Record>, u: real) returns (r: Option<T>)
    ensures r == RandomWord(words, key, stats, u)
  {
    if |words| == 0 {
      return None;
    }
    var wordsWithScore := Weights(words, key, stats);
    var totalScore := Sum(wordsWithScore);
    var randomScore := u * totalScore;
    assert randomScore == RandomScore(wordsWithScore, u);
    var currentScore := 0.0;
    var i := 0;
    while i < |wordsWithScore|
      invariant 0 <= i <= |wordsWithScore|
      invariant currentScore == Sum(wordsWithScore[..i])
      invariant forall j :: 0 <= j < i ==> RunningSum(wordsWithScore, j) < randomScore
    {
      assert wordsWithScore[..i + 1] == wordsWithScore[..i] + [wordsWithScore[i]];
      SumSnoc(wordsWithScore[..i], wordsWithScore[i]);
      currentScore := currentScore + wordsWithScore[i];
      if currentScore >= randomScore {
        assert RunningSum(wordsWithScore, i) == currentScore;
        FirstReachUnique(wordsWithScore, randomScore, i);
        return Some(words[i]);
      }
      i := i + 1;
    }
    FirstReachUnique(wordsWithScore, randomScore, i);
    return Some(words[0]);
  }

  /** `Math.round(part / whole * 100)` over exact arithmetic: the percentage rounded half up. */
  function RoundPercent(part: nat, whole: nat): (p: nat)
    requires whole > 0
    // p is the integer nearest to 100 * part / whole, halves rounded up
    ensures 2 * whole * p <= 200 * part + whole < 2 * whole * (p + 1)
    ensures part <= whole ==> p <= 100
  {
    var n := 200 * part + whole;
    var d := 2 * whole;
    DivBounds(n, d);
    if part <= whole then
      AtMostHundred(n, d, part, whole);
      n / d
    else
      n / d
  }

  lemma DivBounds(n: nat, d: nat)
    requires d > 0
    ensures d * (n / d) <= n < d * (n / d + 1)
  {
  }

  lemma AtMostHundred(n: nat, d: nat, part: nat, whole: nat)
    requires d == 2 * whole && n == 200 * part + whole && part <= whole && whole > 0
    requires d * (n / d) <= n
    ensures n / d <= 100
  {
    var q := n / d;
    if q > 100 {
      MulAtLeast(d, q, 101);
    }
  }

  lemma MulAtLeast(d: nat, q: nat, c: nat)
    requires q >= c
    ensures d * q >= d * c
  {
    assert d * q == d * c + d * (q - c);
  }

  /** The summary `getOverallStats` returns. */
  datatype Overall = Overall(totalAttempts: nat, totalCorrect: nat, wordsPlayed: nat, successRate: nat)

  function TotalOf(r: Record): nat { r.total }
  function CorrectOf(r: Record): nat { r.correct }

  /** The `reduce` of one count over a list of records. */
  function SumOf(es: seq<Record>, f: Record -> nat): nat
  {
    if es == [] then 0 else f(es[0]) + SumOf(es[1..], f)
  }

  /** In records whose correct count never exceeds their total, neither do the sums. */
  lemma {:induction false} CorrectWithinAttempts(es: seq<Record>)
    ensures (forall i :: 0 <= i < |es| ==> es[i].correct <= es[i].total) ==>
      SumOf(es, CorrectOf) <= SumOf(es, TotalOf)
  {
    if es != [] {
      CorrectWithinAttempts(es[1..]);
    }
  }

  /**
   * `getOverallStats` applied to `entries`, the ledger's `Object.values`:
   * the sums of attempts and of correct answers, the number of records and the
   * rounded success rate (0 when nothing was attempted).
   */
  function OverallStats(entries: seq<Record>): (o: Overall)
    ensures o.wordsPlayed == |entries|
    ensures o.totalAttempts == 0 ==> o.successRate == 0
    ensures o.totalAttempts > 0 ==>
      2 * o.totalAttempts * o.successRate <= 200 * o.totalCorrect + o.totalAttempts < 2 * o.totalAttempts * (o.successRate + 1)
    ensures (forall i :: 0 <= i < |entries| ==> entries[i].correct <= entries[i].total) ==>
      o.totalCorrect <= o.totalAttempts && o.successRate <= 100
  {
    var totalAttempts := SumOf(entries, TotalOf);
    var totalCorrect := SumOf(entries, CorrectOf);
    CorrectWithinAttempts(entries);
    var successRate := if totalAttempts > 0 then RoundPercent(totalCorrect, totalAttempts) else 0;
    Overall(totalAttempts, totalCorrect, |entries|, successRate)
  }

  /** `Object.values(stats)`: the ledger's records, one per key, in some order. */
  ghost function Entries<K>(m: map<K, Record>): (es: seq<Record>)
    ensures |es| == |m|
    decreases |m|
  {
    if |m| == 0 then []
    else
      var k :| k in m;
      assert (m - {k}).Keys == m.Keys - {k};
      [m[k]] + Entries(m - {k})
  }

  lemma SumOfCons(x: Record, es: seq<Record>, f: Record -> nat)
    ensures SumOf([x] + es, f) == f(x) + SumOf(es, f)
  {
    assert ([x] + es)[1..] == es;
  }

  /** The record `Entries` lists first, and the rest. */
  lemma EntriesUnfold<K>(m: map<K, Record>) returns (j: K)
    requires |m| > 0
    ensures j in m && Entries(m) == [m[j]] + Entries(m - {j})
  {
    j :| j in m && Entries(m) == [m[j]] + Entries(m - {j});
  }

  lemma RemoveSize<K>(m: map<K, Record>, k: K)
    requires k in m
    ensures |m - {k}| == |m| - 1
  {
    assert (m - {k}).Keys == m.Keys - {k};
  }

  /** A sum over the records does not depend on the order `Object.values` lists them in. */
  lemma {:induction false} SumEntriesRemove<K>(m: map<K, Record>, k: K, f: Record -> nat)
    requires k in m
    ensures SumOf(Entries(m), f) == f(m[k]) + SumOf(Entries(m - {k}), f)
    decreases |m|, 1
  {
    var j := EntriesUnfold(m);
    SumOfCons(m[j], Entries(m - {j}), f);
    if j != k {
      SwapRemoved(m, j, k, f);
    }
  }

  /** Taking out `j` first or `k` first leaves the same sum. */
  lemma {:induction false} SwapRemoved<K>(m: map<K, Record>, j: K, k: K, f: Record -> nat)
    requires j in m && k in m && j != k
    ensures f(m[j]) + SumOf(Entries(m - {j}), f) == f(m[k]) + SumOf(Entries(m - {k}), f)
    decreases |m|, 0
  {
    RemoveSize(m, j);
    RemoveSize(m, k);
    var mj, mk := m - {j}, m - {k};
    assert k in mj && mj[k] == m[k];
    assert j in mk && mk[j] == m[j];
    SumEntriesRemove(mj, k, f);
    SumEntriesRemove(mk, j, f);
    RemoveBoth(m, j, k);
  }

  lemma RemoveBoth<K>(m: map<K, Record>, j: K, k: K)
    ensures (m - {j}) - {k} == (m - {k}) - {j}
  {
    assert ((m - {j}) - {k}).Keys == ((m - {k}) - {j}).Keys;
  }

  /** The ledger-level summary: every record counted once, rate within [0, 100]. */
  lemma LedgerOverall<K>(stats: map<K, Record>)
    requires Consistent(stats)
    ensures var o := OverallStats(Entries(stats));
      o.wordsPlayed == |stats| && o.totalCorrect <= o.totalAttempts && o.successRate <= 100
  {
  }

  /** Replacing the record of a present key changes a sum by the difference of the two records. */
  lemma SumAfterReplace<K>(stats: map<K, Record>, k: K, rec: Record, f: Record -> nat)
    requires k in stats
    ensures SumOf(Entries(stats[k := rec]), f) + f(stats[k]) == SumOf(Entries(stats), f) + f(rec)
  {
    var after := stats[k := rec];
    assert after - {k} == stats - {k};
    SumEntriesRemove(after, k, f);
    SumEntriesRemove(stats, k, f);
  }

  /** Adding the record of a new key adds that record to a sum. */
  lemma SumAfterInsert<K>(stats: map<K, Record>, k: K, rec: Record, f: Record -> nat)
    requires k !in stats
    ensures SumOf(Entries(stats[k := rec]), f) == SumOf(Entries(stats), f) + f(rec)
  {
    var after := stats[k := rec];
    assert after - {k} == stats;
    SumEntriesRemove(after, k, f);
  }

  /**
   * One more answer on key `k` adds exactly one attempt to the summary, one
   * correct answer iff it was right, and one played word iff `k` was new.
   */
  lemma OverallAfterAnswer<K>(stats: map<K, Record>, k: K, isCorrect: bool)
    ensures var after := if isCorrect then RecordCorrect(stats, k) else RecordWrong(stats, k);
      && SumOf(Entries(after), TotalOf) == SumOf(Entries(stats), TotalOf) + 1
      && SumOf(Entries(after), CorrectOf) == SumOf(Entries(stats), CorrectOf) + (if isCorrect then 1 else 0)
      && |after| == |stats| + (if k in stats then 0 else 1)
  {
    var rec := Answered(Lookup(stats, k), isCorrect);
    var after := stats[k := rec];
    assert after == if isCorrect then RecordCorrect(stats, k) else RecordWrong(stats, k);
    if k in stats {
      SumAfterReplace(stats, k, rec, TotalOf);
      SumAfterReplace(stats, k, rec, CorrectOf);
    } else {
      SumAfterInsert(stats, k, rec, TotalOf);
      SumAfterInsert(stats, k, rec, CorrectOf);
    }
  }

  /** After `resetStats` the summary is all zeros. */
  lemma OverallAfterReset()
    ensures OverallStats([]) == Overall(0, 0, 0, 0)
  {
  }
}
