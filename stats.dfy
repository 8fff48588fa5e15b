/**
 * The attempt ledger of `src/stores/stats.ts`: a map from a stat key to the
 * counts of correct, incorrect and total answers, replaced wholesale by
 * `addCorrectAnswer`, `addWrongAnswer` and `resetStats`.
 */
module Stats {
  import opened Wrappers

  /** `WordStats`. Counts are naturals: every writer only adds one to them. */
  datatype Record = Record(correct: nat, incorrect: nat, total: nat)

  /** The record `getStats` and both add operations start from when a key is absent. */
  const Zero := Record(0, 0, 0)

  /** `stats[k]`, which the source reads as `undefined` for an absent key. */
  function Get<K>(stats: map<K, Record>, k: K): Option<Record>
  {
    if k in stats then Some(stats[k]) else None
  }

  /** `stats[k] || {correct: 0, incorrect: 0, total: 0}`. */
  function Lookup<K>(stats: map<K, Record>, k: K): Record
  {
    if k in stats then stats[k] else Zero
  }

  /** Every record's total is the sum of its two outcome counts. */
  ghost predicate Consistent<K>(stats: map<K, Record>)
  {
    forall k :: k in stats ==> stats[k].total == stats[k].correct + stats[k].incorrect
  }

  /** The record one more answer turns `cur` into. */
  function Answered(cur: Record, isCorrect: bool): Record
  {
    if isCorrect then Record(cur.correct + 1, cur.incorrect, cur.total + 1)
    else Record(cur.correct, cur.incorrect + 1, cur.total + 1)
  }

  /** The ledger `addCorrectAnswer(k)` installs. */
  function RecordCorrect<K>(stats: map<K, Record>, k: K): (r: map<K, Record>)
    ensures r.Keys == stats.Keys + {k}
    ensures k in r && r[k].correct == Lookup(stats, k).correct + 1
    ensures r[k].incorrect == Lookup(stats, k).incorrect
    ensures r[k].total == Lookup(stats, k).total + 1
    ensures forall j :: j in stats && j != k ==> r[j] == stats[j]
    ensures Consistent(stats) ==> Consistent(r)
  {
    stats[k := Answered(Lookup(stats, k), true)]
  }

  /** The ledger `addWrongAnswer(k)` installs. */
  function RecordWrong<K>(stats: map<K, Record>, k: K): (r: map<K, Record>)
    ensures r.Keys == stats.Keys + {k}
    ensures k in r && r[k].correct == Lookup(stats, k).correct
    ensures r[k].incorrect == Lookup(stats, k).incorrect + 1
    ensures r[k].total == Lookup(stats, k).total + 1
    ensures forall j :: j in stats && j != k ==> r[j] == stats[j]
    ensures Consistent(stats) ==> Consistent(r)
  {
    stats[k := Answered(Lookup(stats, k), false)]
  }

  /** The three writes of the store, for reasoning about sequences of them. */
  datatype Op<K> = AddCorrect(key: K) | AddWrong(key: K) | Reset

  function Apply<K>(stats: map<K, Record>, op: Op<K>): map<K, Record>
  {
    match op
    case AddCorrect(k) => RecordCorrect(stats, k)
    case AddWrong(k) => RecordWrong(stats, k)
    case Reset => map[]
  }

  /** The ledger after the operations `ops`, applied left to right. */
  function Run<K>(stats: map<K, Record>, ops: seq<Op<K>>): map<K, Record>
    decreases |ops|
  {
    if ops == [] then stats else Run(Apply(stats, ops[0]), ops[1..])
  }

  /** Starting from the empty ledger, every reachable ledger is consistent. */
  lemma {:induction false} RunKeepsConsistent<K>(stats: map<K, Record>, ops: seq<Op<K>>)
    requires Consistent(stats)
    ensures Consistent(Run(stats, ops))
    decreases |ops|
  {
    if ops != [] {
      RunKeepsConsistent(Apply(stats, ops[0]), ops[1..]);
    }
  }

  /**
   * Every key of a reachable ledger was written by an add after the last
   * reset, or was there at the start and no reset has happened.
   */
  lemma {:induction false} RunKeys<K>(stats: map<K, Record>, ops: seq<Op<K>>, k: K)
    requires k in Run(stats, ops)
    ensures || (k in stats && forall j :: 0 <= j < |ops| ==> !ops[j].Reset?)
            || exists i :: 0 <= i < |ops| && !ops[i].Reset? && ops[i].key == k &&
                 forall j :: i < j < |ops| ==> !ops[j].Reset?
    decreases |ops|
  {
    if ops != [] {
      var next, tail := Apply(stats, ops[0]), ops[1..];
      RunKeys(next, tail, k);
      if k in next && forall j :: 0 <= j < |tail| ==> !tail[j].Reset? {
        assert !ops[0].Reset?;
        forall j | 0 < j < |ops| ensures !ops[j].Reset? {
          assert ops[j] == tail[j - 1];
        }
        if k !in stats {
          assert ops[0].key == k;
        }
      } else {
        var i :| 0 <= i < |tail| && !tail[i].Reset? && tail[i].key == k &&
                 forall j :: i < j < |tail| ==> !tail[j].Reset?;
        assert ops[i + 1] == tail[i];
        forall j | i + 1 < j < |ops| ensures !ops[j].Reset? {
          assert ops[j] == tail[j - 1];
        }
      }
    }
  }

  /** On a fresh key, a correct answer and then a wrong one give {1, 1, 2}. */
  lemma CorrectThenWrong<K>(stats: map<K, Record>, k: K)
    requires k !in stats
    ensures Lookup(RecordWrong(RecordCorrect(stats, k), k), k) == Record(1, 1, 2)
  {
  }

  /** The two add operations commute, on the same key or on different keys. */
  lemma AddsCommute<K>(stats: map<K, Record>, k: K, j: K)
    ensures RecordWrong(RecordCorrect(stats, k), j) == RecordCorrect(RecordWrong(stats, j), k)
  {
    var a := RecordWrong(RecordCorrect(stats, k), j);
    var b := RecordCorrect(RecordWrong(stats, j), k);
    assert a.Keys == b.Keys;
    forall x | x in a ensures a[x] == b[x] {
      assert Lookup(a, x) == a[x] && Lookup(b, x) == b[x];
    }
  }

  /** After a reset every key reads as zeros, whatever was recorded before. */
  lemma ResetReadsZero<K>(stats: map<K, Record>, k: K)
    ensures Lookup(Apply(stats, Reset), k) == Zero
  {
  }

  /** The store object: `stats` is the field the three writes replace. */
  class StatsStore<K(==)> {
    var stats: map<K, Record>

    ghost predicate Valid()
      reads this
    {
      Consistent(stats)
    }

    /** The store starts as `stats: {}`. */
    constructor ()
      ensures Valid() && stats == map[]
    {
      stats := map[];
    }

    method AddCorrectAnswer(k: K)
      requires Valid()
      modifies this
      ensures Valid()
      ensures stats == RecordCorrect(old(stats), k)
    {
      var current := Lookup(stats, k);
      stats := stats[k := Record(current.correct + 1, current.incorrect, current.total + 1)];
    }

    method AddWrongAnswer(k: K)
      requires Valid()
      modifies this
      ensures Valid()
      ensures stats == RecordWrong(old(stats), k)
    {
      var current := Lookup(stats, k);
      stats := stats[k := Record(current.correct, current.incorrect + 1, current.total + 1)];
    }

    method ResetStats()
      modifies this
      ensures Valid() && stats == map[]
    {
      stats := map[];
    }

    /** `getStats`: the stored record, or zeros for a key never answered. */
    method GetStats(k: K) returns (r: Record)
      ensures k in stats ==> r == stats[k]
      ensures k !in stats ==> r == Zero
      ensures Valid() ==> r.total == r.correct + r.incorrect
    {
      r := if k in stats then stats[k] else Zero;
    }
  }
}
