/**
 * `src/components/ProgressIndicator.tsx` without its markup: the
 * knew / learning / new classification of the words on screen, the bar
 * widths with their 3% minimum, and the position of the indicator triangle.
 */
module ProgressIndicator {
  import opened Wrappers
  import opened Stats

  /** `WordCategory`: "knew", "didntKnow" (shown as learning) and "notPracticed" (shown as new). */
  datatype WordCategory = Knew | DidntKnow | NotPracticed

  /** The class one word's record puts it in; each record is in exactly one. */
  function CategoryOf(rec: Option<Record>): (c: WordCategory)
    ensures c == NotPracticed <==> rec.None? || rec.value.total == 0
    ensures c == Knew <==> rec.Some? && rec.value.total > 0 && rec.value.correct > rec.value.incorrect
    ensures c == DidntKnow <==> rec.Some? && rec.value.total > 0 && rec.value.correct <= rec.value.incorrect
  {
    if rec.None? || rec.value.total == 0 then NotPracticed
    else if rec.value.correct > rec.value.incorrect then Knew
    else DidntKnow
  }

  /** The class of a word, looked up in the ledger by its key (`word.index`). */
  function ClassOf<T, K>(w: T, key: T -> K, stats: map<K, Record>): WordCategory
  {
    CategoryOf(Get(stats, key(w)))
  }

  /** How many of `words` are in class `c`. */
  function Count<T, K>(words: seq<T>, key: T -> K, stats: map<K, Record>, c: WordCategory): (n: nat)
    ensures n <= |words|
  {
    if words == [] then 0
    else Count(words[..|words| - 1], key, stats, c) + (if ClassOf(words[|words| - 1], key, stats) == c then 1 else 0)
  }

  /** Every word is counted in exactly one class. */
  lemma {:induction false} CountsPartition<T, K>(words: seq<T>, key: T -> K, stats: map<K, Record>)
    ensures Count(words, key, stats, Knew) + Count(words, key, stats, DidntKnow)
          + Count(words, key, stats, NotPracticed) == |words|
  {
    if words != [] {
      CountsPartition(words[..|words| - 1], key, stats);
    }
  }

  /**
   * `currentCategory`: the class of the last word whose key equals the current
   * word's, and "notPracticed" when no word matches.
   */
  function CurrentCategory<T, K>(words: seq<T>, key: T -> K, stats: map<K, Record>, current: Option<K>): WordCategory
  {
    if words == [] then NotPracticed
    else if current == Some(key(words[|words| - 1])) then ClassOf(words[|words| - 1], key, stats)
    else CurrentCategory(words[..|words| - 1], key, stats, current)
  }

  /** With no matching word the current class is "notPracticed". */
  lemma {:induction false} CurrentCategoryNoMatch<T, K>(words: seq<T>, key: T -> K, stats: map<K, Record>, current: Option<K>)
    requires forall i :: 0 <= i < |words| ==> current != Some(key(words[i]))
    ensures CurrentCategory(words, key, stats, current) == NotPracticed
  {
    if words != [] {
      var rest := words[..|words| - 1];
      assert forall i :: 0 <= i < |rest| ==> rest[i] == words[i];
      CurrentCategoryNoMatch(rest, key, stats, current);
    }
  }

  /** Otherwise it is the class of the last matching word. */
  lemma {:induction false} CurrentCategoryLastMatch<T, K>(words: seq<T>, key: T -> K, stats: map<K, Record>, current: Option<K>, i: nat)
    requires i < |words| && current == Some(key(words[i]))
    requires forall j :: i < j < |words| ==> current != Some(key(words[j]))
    ensures CurrentCategory(words, key, stats, current) == ClassOf(words[i], key, stats)
  {
    if i < |words| - 1 {
      var rest := words[..|words| - 1];
      assert forall j :: 0 <= j < |rest| ==> rest[j] == words[j];
      CurrentCategoryLastMatch(rest, key, stats, current, i);
    }
  }

  /** The `forEach` loop that fills the three counters and `currentCategory`. */
  method Tally<T, K>(words: seq<T>, key: T -> K, stats: map<K, Record>, current: Option<K>)
    returns (knew: nat, didntKnow: nat, notPracticed: nat, currentCategory: WordCategory)
    ensures knew == Count(words, key, stats, Knew)
    ensures didntKnow == Count(words, key, stats, DidntKnow)
    ensures notPracticed == Count(words, key, stats, NotPracticed)
    ensures currentCategory == CurrentCategory(words, key, stats, current)
  {
    knew, didntKnow, notPracticed := 0, 0, 0;
    currentCategory := NotPracticed;
    var i := 0;
    while i < |words|
      invariant 0 <= i <= |words|
      invariant knew == Count(words[..i], key, stats, Knew)
      invariant didntKnow == Count(words[..i], key, stats, DidntKnow)
      invariant notPracticed == Count(words[..i], key, stats, NotPracticed)
      invariant currentCategory == CurrentCategory(words[..i], key, stats, current)
    {
      var word := words[i];
      var wordStats := Get(stats, key(word));
      var isCurrentWord := current == Some(key(word));
      assert words[..i + 1][..i] == words[..i];
      if wordStats.None? || wordStats.value.total == 0 {
        if isCurrentWord { currentCategory := NotPracticed; }
        notPracticed := notPracticed + 1;
      } else if wordStats.value.correct > wordStats.value.incorrect {
        if isCurrentWord { currentCategory := Knew; }
        knew := knew + 1;
      } else {
        if isCurrentWord { currentCategory := DidntKnow; }
        didntKnow := didntKnow + 1;
      }
      i := i + 1;
    }
    assert words[..i] == words;
  }

  /** The three bar widths in percent and the indicator position. */
  datatype Bar = Bar(knewPercent: real, didntKnowPercent: real, notPracticedPercent: real, indicatorPercent: real)

  /** `minWidth`. */
  const MinWidth: real := 3.0

  /** A class's width before normalisation: 0 when empty, else its share raised to at least 3%. */
  function Widened(count: nat, total: nat): (w: real)
    requires total > 0
    ensures count == 0 ==> w == 0.0
    ensures count > 0 ==> w >= MinWidth
  {
    var raw := (count as real / total as real) * 100.0;
    if count > 0 then (if raw > MinWidth then raw else MinWidth) else 0.0
  }

  /**
   * The bar for `total` words with the given class counts: nothing for an
   * empty list, else the widened widths scaled to 100% and the indicator at
   * the middle of the current class's segment.
   */
  function Layout(knew: nat, didntKnow: nat, notPracticed: nat, total: nat, current: WordCategory): (r: Option<Bar>)
    ensures r.None? <==> total == 0
    ensures r.Some? ==>
      && (r.value.knewPercent == 0.0 <==> knew == 0)
      && (r.value.didntKnowPercent == 0.0 <==> didntKnow == 0)
      && (r.value.notPracticedPercent == 0.0 <==> notPracticed == 0)
    ensures r.Some? ==> r.value.knewPercent >= 0.0 && r.value.didntKnowPercent >= 0.0 && r.value.notPracticedPercent >= 0.0
    ensures r.Some? && knew + didntKnow + notPracticed > 0 ==>
      r.value.knewPercent + r.value.didntKnowPercent + r.value.notPracticedPercent == 100.0
    ensures r.Some? ==> SegmentMidpoint(r.value, current)
  {
    if total == 0 then None
    else
      var knewMin := Widened(knew, total);
      var didntKnowMin := Widened(didntKnow, total);
      var notPracticedMin := Widened(notPracticed, total);
      var totalMin := knewMin + didntKnowMin + notPracticedMin;
      var scale := if totalMin > 0.0 then 100.0 / totalMin else 1.0;
      ScaledWidths(knewMin, didntKnowMin, notPracticedMin, scale);
      var knewPercent := knewMin * scale;
      var didntKnowPercent := didntKnowMin * scale;
      var notPracticedPercent := notPracticedMin * scale;
      var indicatorPercent :=
        if current == Knew then knewPercent / 2.0
        else if current == DidntKnow then knewPercent + didntKnowPercent / 2.0
        else knewPercent + didntKnowPercent + notPracticedPercent / 2.0;
      Some(Bar(knewPercent, didntKnowPercent, notPracticedPercent, indicatorPercent))
  }

  /** The indicator sits at the middle of the current class's segment of the bar. */
  ghost predicate SegmentMidpoint(b: Bar, current: WordCategory)
  {
    match current
    case Knew => b.indicatorPercent * 2.0 == b.knewPercent
    case DidntKnow => (b.indicatorPercent - b.knewPercent) * 2.0 == b.didntKnowPercent
    case NotPracticed => (b.indicatorPercent - b.knewPercent - b.didntKnowPercent) * 2.0 == b.notPracticedPercent
  }

  lemma ScaledWidths(a: real, b: real, c: real, scale: real)
    requires a >= 0.0 && b >= 0.0 && c >= 0.0
    requires scale == if a + b + c > 0.0 then 100.0 / (a + b + c) else 1.0
    ensures scale > 0.0
    ensures a * scale >= 0.0 && b * scale >= 0.0 && c * scale >= 0.0
    ensures (a * scale == 0.0 <==> a == 0.0) && (b * scale == 0.0 <==> b == 0.0) && (c * scale == 0.0 <==> c == 0.0)
    ensures a + b + c > 0.0 ==> a * scale + b * scale + c * scale == 100.0
  {
    if a + b + c > 0.0 {
      assert (a + b + c) * scale == 100.0;
      assert a * scale + b * scale + c * scale == (a + b + c) * scale;
    }
  }

  /**
   * The component on its inputs: null for an empty list; otherwise the three
   * widths are positive exactly for the non-empty classes, add up to 100, and
   * the indicator lies within the bar, inside the current class's segment.
   */
  lemma ProgressBarShape<T, K>(words: seq<T>, key: T -> K, stats: map<K, Record>, current: Option<K>)
    ensures var cur := CurrentCategory(words, key, stats, current);
      var r := Layout(Count(words, key, stats, Knew), Count(words, key, stats, DidntKnow),
                      Count(words, key, stats, NotPracticed), |words|, cur);
      && (r.None? <==> words == [])
      && (r.Some? ==>
            && r.value.knewPercent + r.value.didntKnowPercent + r.value.notPracticedPercent == 100.0
            && 0.0 <= r.value.indicatorPercent <= 100.0
            && (cur == Knew ==> r.value.indicatorPercent <= r.value.knewPercent)
            && (cur == DidntKnow ==> r.value.knewPercent <= r.value.indicatorPercent
                                      <= r.value.knewPercent + r.value.didntKnowPercent)
            && (cur == NotPracticed ==> r.value.knewPercent + r.value.didntKnowPercent <= r.value.indicatorPercent))
  {
    CountsPartition(words, key, stats);
  }
}
