/**
 * `src/components/StatsView.tsx` without its markup: the words of the
 * selected categories, one row per word with its record and success rate,
 * sorted by that rate (unattempted words last), and the badge conditions.
 */
module StatsView {
  import opened Wrappers
  import opened Stats
  import opened Vocabulary
  import opened Seqs
  import Words

  /** `words.filter((w) => selectedCategories.includes(w.category))`. */
  function FilteredWords(words: seq<VocabularyItem>, selected: seq<string>): seq<VocabularyItem>
  {
    Filter(words, (w: VocabularyItem) => w.category in selected)
  }

  /** The filtered words are exactly those of a selected category, in their original order. */
  lemma FilteredWordsSpec(words: seq<VocabularyItem>, selected: seq<string>)
    ensures forall w :: w in FilteredWords(words, selected) ==> w in words && w.category in selected
    ensures forall i :: 0 <= i < |words| && words[i].category in selected ==> words[i] in FilteredWords(words, selected)
    ensures IsSubsequence(FilteredWords(words, selected), words)
  {
    FilterMembers(words, (w: VocabularyItem) => w.category in selected);
    FilterIsSubsequence(words, (w: VocabularyItem) => w.category in selected);
  }

  /** `successRate`: null when nothing was attempted, else the rounded percentage of correct answers. */
  function SuccessRate(rec: Record): (r: Option<nat>)
    ensures r.None? <==> rec.total == 0
    ensures r.Some? ==>
      2 * rec.total * r.value <= 200 * rec.correct + rec.total < 2 * rec.total * (r.value + 1)
    ensures r.Some? && rec.correct <= rec.total ==> r.value <= 100
  {
    if rec.total > 0 then Some(Words.RoundPercent(rec.correct, rec.total)) else None
  }

  /** One row of `wordStats`: `{ word, index, ...wordStat, successRate }`. */
  datatype Row = Row(word: VocabularyItem, index: nat, correct: nat, incorrect: nat, total: nat, successRate: Option<nat>)

  function RowFor(word: VocabularyItem, index: nat, rec: Record): Row
  {
    Row(word, index, rec.correct, rec.incorrect, rec.total, SuccessRate(rec))
  }

  /**
   * The `map` step: the row of the word at position `index` of the filtered
   * list reads the ledger at that same position `index`, defaulting to zeros.
   */
  function Rows(filtered: seq<VocabularyItem>, stats: map<int, Record>): (rows: seq<Row>)
    ensures |rows| == |filtered|
    ensures forall i :: 0 <= i < |rows| ==> rows[i] == RowFor(filtered[i], i, Lookup(stats, i))
  {
    seq(|filtered|, i requires 0 <= i < |filtered| => RowFor(filtered[i], i, Lookup(stats, i)))
  }

  /** The `sort` comparator: ascending success rate, rows without a rate last. */
  function Compare(a: Row, b: Row): int
  {
    if a.successRate.None? && b.successRate.None? then 0
    else if a.successRate.None? then 1
    else if b.successRate.None? then -1
    else a.successRate.value - b.successRate.value
  }

  /**
   * The comparator is a total preorder: it is 0 exactly for equal rates (or
   * two missing ones), swapping its arguments flips its sign, and "not after"
   * is total and transitive.
   */
  lemma CompareIsTotalPreorder(a: Row, b: Row, c: Row)
    ensures Compare(a, b) == 0 <==> a.successRate == b.successRate
    ensures Compare(a, b) == -Compare(b, a)
    ensures Compare(a, b) <= 0 || Compare(b, a) <= 0
    ensures Compare(a, b) <= 0 && Compare(b, c) <= 0 ==> Compare(a, c) <= 0
  {
  }

  predicate Sorted(rows: seq<Row>)
  {
    forall i, j :: 0 <= i < j < |rows| ==> Compare(rows[i], rows[j]) <= 0
  }

  /** Places `x` before the first row it does not come after (stable). */
  function Insert(x: Row, sorted: seq<Row>): (r: seq<Row>)
    ensures multiset(r) == multiset(sorted) + multiset{x}
    ensures Sorted(sorted) ==> Sorted(r)
  {
    if sorted == [] then [x]
    else if Compare(x, sorted[0]) <= 0 then
      InsertHead(x, sorted);
      [x] + sorted
    else
      var rest := Insert(x, sorted[1..]);
      assert sorted == [sorted[0]] + sorted[1..];
      InsertTail(x, sorted, rest);
      [sorted[0]] + rest
  }

  lemma InsertHead(x: Row, sorted: seq<Row>)
    requires sorted != [] && Compare(x, sorted[0]) <= 0
    ensures Sorted(sorted) ==> Sorted([x] + sorted)
  {
    if Sorted(sorted) {
      forall i, j | 0 <= i < j < |[x] + sorted| ensures Compare(([x] + sorted)[i], ([x] + sorted)[j]) <= 0 {
        if i == 0 {
          CompareIsTotalPreorder(x, sorted[0], sorted[j - 1]);
        }
      }
    }
  }

  lemma InsertTail(x: Row, sorted: seq<Row>, rest: seq<Row>)
    requires sorted != [] && Compare(x, sorted[0]) > 0
    requires multiset(rest) == multiset(sorted[1..]) + multiset{x}
    requires Sorted(sorted[1..]) ==> Sorted(rest)
    ensures Sorted(sorted) ==> Sorted([sorted[0]] + rest)
  {
    if Sorted(sorted) {
      assert Sorted(sorted[1..]);
      var r := [sorted[0]] + rest;
      forall j | 0 < j < |r| ensures Compare(sorted[0], r[j]) <= 0 {
        assert r[j] in multiset(rest);
        if r[j] == x {
          CompareIsTotalPreorder(x, sorted[0], x);
        } else {
          assert r[j] in multiset(sorted[1..]);
          var k :| 0 <= k < |sorted[1..]| && sorted[1..][k] == r[j];
          assert sorted[k + 1] == r[j];
        }
      }
    }
  }

  /** The `sort` of `wordStats`, as a stable insertion sort. */
  function SortRows(rows: seq<Row>): (r: seq<Row>)
    ensures multiset(r) == multiset(rows)
    ensures Sorted(r)
  {
    if rows == [] then []
    else
      assert rows == [rows[0]] + rows[1..];
      Insert(rows[0], SortRows(rows[1..]))
  }

  /** The rows whose success rate is `v` (all unattempted rows, for `None`). */
  function RateIs(v: Option<nat>): Row -> bool
  {
    (y: Row) => y.successRate == v
  }

  /**
   * Insertion moves `x` past a row only when their rates differ, so among
   * the rows of one rate `x` comes first, ahead of all of them.
   */
  lemma {:induction false} InsertStable(x: Row, sorted: seq<Row>, v: Option<nat>)
    ensures Filter(Insert(x, sorted), RateIs(v)) == (if x.successRate == v then [x] else []) + Filter(sorted, RateIs(v))
    decreases |sorted|
  {
    var p := RateIs(v);
    if sorted == [] {
      FilterCons(x, [], p);
    } else if Compare(x, sorted[0]) <= 0 {
      FilterCons(x, sorted, p);
    } else {
      var rest := sorted[1..];
      InsertStable(x, rest, v);
      FilterCons(sorted[0], Insert(x, rest), p);
      assert sorted == [sorted[0]] + rest;
      FilterCons(sorted[0], rest, p);
      CompareIsTotalPreorder(x, sorted[0], x);
    }
  }

  /**
   * The sort is stable: the rows of any one success rate, unattempted rows
   * included, keep the order they had before sorting.
   */
  lemma {:induction false} SortRowsStable(rows: seq<Row>)
    ensures forall v :: Filter(SortRows(rows), RateIs(v)) == Filter(rows, RateIs(v))
  {
    if rows != [] {
      SortRowsStable(rows[1..]);
      forall v ensures Filter(SortRows(rows), RateIs(v)) == Filter(rows, RateIs(v)) {
        InsertStable(rows[0], SortRows(rows[1..]), v);
        assert rows == [rows[0]] + rows[1..];
        FilterCons(rows[0], rows[1..], RateIs(v));
      }
    }
  }

  /**
   * In the sorted rows every attempted word precedes every unattempted one,
   * and attempted words appear in non-decreasing order of success rate.
   */
  lemma SortedOrder(rows: seq<Row>, i: nat, j: nat)
    requires i < j < |SortRows(rows)|
    ensures var s := SortRows(rows);
      && (s[j].successRate.Some? ==> s[i].successRate.Some?)
      && (s[i].successRate.Some? && s[j].successRate.Some? ==>
            s[i].successRate.value <= s[j].successRate.value)
  {
  }

  /**
   * `wordStats`: the rows of the words of the selected categories, sorted by
   * success rate, with rows of equal rate left in the filtered order.
   */
  function WordStats(words: seq<VocabularyItem>, selected: seq<string>, stats: map<int, Record>): (rows: seq<Row>)
    ensures multiset(rows) == multiset(Rows(FilteredWords(words, selected), stats))
    ensures Sorted(rows)
    ensures forall v :: Filter(rows, RateIs(v)) == Filter(Rows(FilteredWords(words, selected), stats), RateIs(v))
  {
    SortRowsStable(Rows(FilteredWords(words, selected), stats));
    SortRows(Rows(FilteredWords(words, selected), stats))
  }

  /** The "New" badge: the word was never attempted. */
  predicate IsNew(row: Row) { row.total == 0 }

  /** The red card and red rate: a success rate below 50%. */
  predicate IsStruggling(row: Row) { row.successRate.Some? && row.successRate.value < 50 }

  /** The sparkle icon: an attempted word with a success rate of at least 70%. */
  predicate HasSparkle(row: Row) { !IsNew(row) && row.successRate.Some? && row.successRate.value >= 70 }

  /** On a row built from a record, "New" means no rate, and the three badges never clash. */
  lemma BadgesOfRow(word: VocabularyItem, index: nat, rec: Record)
    ensures var row := RowFor(word, index, rec);
      && (IsNew(row) <==> row.successRate.None?)
      && (IsStruggling(row) ==> !IsNew(row) && !HasSparkle(row))
      && (HasSparkle(row) ==> !IsNew(row) && !IsStruggling(row))
  {
  }
}
