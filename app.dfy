/**
 * The practice tab of `src/App.tsx`: unlock state to lesson ids, lesson ids
 * to eligible words, the category filter, the re-pick rule, `handleNext`,
 * the empty-state message and the locked-lesson toast. The word list
 * `@/lib/list` and `isLessonUnlocked` are not part of this model; they are
 * parameters here.
 */
module App {
  import opened Wrappers
  import opened Stats
  import opened Vocabulary
  import opened Seqs
  import opened Lessons
  import opened Words

  /** The ids of the lessons of `ls` that pass `isUnlocked`, in the order of `ls`. */
  function UnlockedIdsOf(ls: seq<Lesson>, isUnlocked: int -> bool): seq<int>
  {
    if ls == [] then []
    else
      var last := ls[|ls| - 1];
      UnlockedIdsOf(ls[..|ls| - 1], isUnlocked) + (if isUnlocked(last.id) then [last.id] else [])
  }

  /**
   * The kept ids are exactly the ids of `ls` that pass `isUnlocked`, each
   * the id of a lesson at or before any one they precede; over increasing
   * ids they stay increasing, hence free of duplicates.
   */
  lemma {:induction false} UnlockedIdsOfSpec(ls: seq<Lesson>, isUnlocked: int -> bool)
    ensures forall id :: id in UnlockedIdsOf(ls, isUnlocked) ==>
      isUnlocked(id) && exists i :: 0 <= i < |ls| && ls[i].id == id
    ensures forall i :: 0 <= i < |ls| && isUnlocked(ls[i].id) ==> ls[i].id in UnlockedIdsOf(ls, isUnlocked)
    ensures (forall i, j :: 0 <= i < j < |ls| ==> ls[i].id < ls[j].id) ==> Increasing(UnlockedIdsOf(ls, isUnlocked))
  {
    if ls != [] {
      var init := ls[..|ls| - 1];
      var last := ls[|ls| - 1];
      UnlockedIdsOfSpec(init, isUnlocked);
      var prev := UnlockedIdsOf(init, isUnlocked);
      var r := UnlockedIdsOf(ls, isUnlocked);
      assert r == prev + (if isUnlocked(last.id) then [last.id] else []);
      forall id | id in r
        ensures isUnlocked(id) && exists i :: 0 <= i < |ls| && ls[i].id == id
      {
        if id in prev {
          var i :| 0 <= i < |init| && init[i].id == id;
          assert ls[i].id == id;
        } else {
          assert ls[|ls| - 1].id == id;
        }
      }
      forall i | 0 <= i < |ls| && isUnlocked(ls[i].id) ensures ls[i].id in r {
        if i < |ls| - 1 {
          assert init[i] == ls[i];
        }
      }
      if forall i, j :: 0 <= i < j < |ls| ==> ls[i].id < ls[j].id {
        assert forall i, j :: 0 <= i < j < |init| ==> init[i].id < init[j].id by {
          forall i, j | 0 <= i < j < |init| ensures init[i].id < init[j].id {
            assert init[i] == ls[i] && init[j] == ls[j];
          }
        }
        forall a, b | 0 <= a < b < |r| ensures r[a] < r[b] {
          if b < |prev| {
            assert r[a] == prev[a] && r[b] == prev[b];
          } else {
            assert r[a] == prev[a] && r[b] == last.id;
            assert prev[a] in prev;
            var i :| 0 <= i < |init| && init[i].id == prev[a];
            assert ls[i].id == prev[a];
          }
        }
      }
    }
  }

  /** The `unlockedLessonIds` loop over the catalog. */
  method UnlockedLessonIds(isUnlocked: int -> bool) returns (unlocked: seq<int>)
    ensures unlocked == UnlockedIdsOf(Catalog, isUnlocked)
  {
    unlocked := [];
    for i := 0 to |Catalog|
      invariant unlocked == UnlockedIdsOf(Catalog[..i], isUnlocked)
    {
      assert Catalog[..i + 1][..i] == Catalog[..i];
      if isUnlocked(Catalog[i].id) {
        unlocked := unlocked + [Catalog[i].id];
      }
    }
    assert Catalog[..|Catalog|] == Catalog;
  }

  /** Over the catalog: exactly the unlocked ids among 1..9, in increasing order, so without duplicates. */
  lemma UnlockedLessonIdsSpec(isUnlocked: int -> bool)
    ensures forall id :: id in UnlockedIdsOf(Catalog, isUnlocked) <==> 1 <= id <= 9 && isUnlocked(id)
    ensures Increasing(UnlockedIdsOf(Catalog, isUnlocked))
  {
    CatalogIds();
    UnlockedIdsOfSpec(Catalog, isUnlocked);
    forall id | 1 <= id <= 9 && isUnlocked(id) ensures id in UnlockedIdsOf(Catalog, isUnlocked) {
      assert Catalog[id - 1].id == id;
    }
  }

  /** `words.map((word, index) => ({ ...word, index }))`. */
  function Indexed(words: seq<VocabularyItem>): (r: seq<IndexedWord>)
    ensures |r| == |words|
    ensures forall i :: 0 <= i < |r| ==> r[i] == IndexedWord(words[i], i)
  {
    seq(|words|, i requires 0 <= i < |words| => IndexedWord(words[i], i))
  }

  /** `unlockedLessonIds.includes(w.lesson)`. */
  function InLessons(ids: seq<int>): IndexedWord -> bool
  {
    (w: IndexedWord) => w.item.lesson in ids
  }

  /** `selectedCategories.includes(w.category)`. */
  function InCategories(selected: seq<string>): IndexedWord -> bool
  {
    (w: IndexedWord) => w.item.category in selected
  }

  /** `unlockedWords`: the indexed words whose lesson is unlocked. */
  function UnlockedWords(words: seq<VocabularyItem>, ids: seq<int>): seq<IndexedWord>
  {
    Filter(Indexed(words), InLessons(ids))
  }

  /**
   * The unlocked words are exactly the words of unlocked lessons, in list
   * order, each carrying its position in the full list.
   */
  lemma UnlockedWordsSpec(words: seq<VocabularyItem>, ids: seq<int>)
    ensures forall w :: w in UnlockedWords(words, ids) ==>
      w.index < |words| && w.item == words[w.index] && w.item.lesson in ids
    ensures forall i :: 0 <= i < |words| && words[i].lesson in ids ==> IndexedWord(words[i], i) in UnlockedWords(words, ids)
    ensures IsSubsequence(UnlockedWords(words, ids), Indexed(words))
  {
    var ix := Indexed(words);
    FilterMembers(ix, InLessons(ids));
    forall i | 0 <= i < |words| && words[i].lesson in ids ensures IndexedWord(words[i], i) in UnlockedWords(words, ids) {
      assert ix[i] == IndexedWord(words[i], i);
    }
    forall w | w in UnlockedWords(words, ids) ensures w.index < |words| && w.item == words[w.index] {
      var i :| 0 <= i < |ix| && ix[i] == w;
    }
    FilterIsSubsequence(ix, InLessons(ids));
  }

  /** `filteredWords`: the unlocked words of a selected category. */
  function FilteredWords(unlocked: seq<IndexedWord>, selected: seq<string>): seq<IndexedWord>
  {
    Filter(unlocked, InCategories(selected))
  }

  /** An unlocked lesson and a selected category. */
  function InBoth(ids: seq<int>, selected: seq<string>): IndexedWord -> bool
  {
    (w: IndexedWord) => w.item.lesson in ids && w.item.category in selected
  }

  /**
   * The filtered words are the subsequence of the unlocked words with a
   * selected category; equivalently, one filter of the indexed list by both
   * conditions.
   */
  lemma FilteredWordsSpec(words: seq<VocabularyItem>, ids: seq<int>, selected: seq<string>)
    ensures var unlocked := UnlockedWords(words, ids);
      && (forall w :: w in FilteredWords(unlocked, selected) ==> w in unlocked && w.item.category in selected)
      && (forall i :: 0 <= i < |unlocked| && unlocked[i].item.category in selected ==> unlocked[i] in FilteredWords(unlocked, selected))
      && IsSubsequence(FilteredWords(unlocked, selected), unlocked)
      && FilteredWords(unlocked, selected) ==
           Filter(Indexed(words), InBoth(ids, selected))
  {
    var unlocked := UnlockedWords(words, ids);
    FilterMembers(unlocked, InCategories(selected));
    FilterIsSubsequence(unlocked, InCategories(selected));
    FilterFilter(Indexed(words), InLessons(ids), InCategories(selected), InBoth(ids, selected));
  }

  /** No unlocked word means no filtered word. */
  lemma NothingUnlockedNothingFiltered(unlocked: seq<IndexedWord>, selected: seq<string>)
    requires unlocked == []
    ensures FilteredWords(unlocked, selected) == []
  {
  }

  /** Some filtered word has this English text (`filteredWords.find(...)` is truthy). */
  predicate HasEnglish(filtered: seq<IndexedWord>, english: string)
  {
    exists w :: w in filtered && w.item.english == english
  }

  /** The condition of the re-pick `useMemo`. */
  predicate NeedsRepick(filtered: seq<IndexedWord>, current: Option<IndexedWord>)
  {
    |filtered| > 0 && (current.None? || !HasEnglish(filtered, current.value.item.english))
  }

  /** `getRandomWord` reads the ledger at `word.index`. */
  function WordKey(w: IndexedWord): int { w.index }

  /** The current word after the re-pick `useMemo` ran with draw `u`. */
  function Reconciled(filtered: seq<IndexedWord>, current: Option<IndexedWord>, stats: map<int, Record>, u: real): Option<IndexedWord>
  {
    if NeedsRepick(filtered, current) then RandomWord(filtered, WordKey, stats, u) else current
  }

  /**
   * After the re-pick, a non-empty filtered list always has a current word
   * whose English text it contains; a word that was re-picked is itself a
   * filtered word; and a current word that still matches is kept.
   */
  lemma ReconciledSpec(filtered: seq<IndexedWord>, current: Option<IndexedWord>, stats: map<int, Record>, u: real)
    ensures var c := Reconciled(filtered, current, stats, u);
      && (filtered != [] ==> c.Some? && HasEnglish(filtered, c.value.item.english))
      && (NeedsRepick(filtered, current) ==> c.Some? && c.value in filtered)
      && (!NeedsRepick(filtered, current) ==> c == current)
  {
    var c := Reconciled(filtered, current, stats, u);
    if NeedsRepick(filtered, current) {
      assert c.value in filtered;
    }
  }

  /** The re-pick never runs on an empty list, so a word shown before the list emptied stays. */
  lemma EmptyListKeepsCurrent(current: Option<IndexedWord>, stats: map<int, Record>, u: real)
    ensures Reconciled([], current, stats, u) == current
  {
  }

  /** The `currentWord` state of the practice tab. */
  class PracticeTab {
    var currentWord: Option<IndexedWord>

    /** The initial state: a draw from the filtered words with the ledger at mount time. */
    constructor (filtered: seq<IndexedWord>, stats: map<int, Record>, u: real)
      ensures currentWord == RandomWord(filtered, WordKey, stats, u)
      ensures currentWord.None? <==> filtered == []
    {
      var first := GetRandomWord(filtered, WordKey, stats, u);
      currentWord := first;
    }

    /** `handleNext`: a fresh draw from the filtered words with the ledger as it is now. */
    method HandleNext(filtered: seq<IndexedWord>, freshStats: map<int, Record>, u: real)
      modifies this
      ensures currentWord == RandomWord(filtered, WordKey, freshStats, u)
      ensures currentWord.None? <==> filtered == []
    {
      currentWord := GetRandomWord(filtered, WordKey, freshStats, u);
    }

    /** The re-pick `useMemo`, run when the filtered words, the current word or the ledger change. */
    method Reconcile(filtered: seq<IndexedWord>, stats: map<int, Record>, u: real)
      modifies this
      ensures currentWord == Reconciled(filtered, old(currentWord), stats, u)
    {
      if |filtered| > 0 && (currentWord.None? || !HasEnglish(filtered, currentWord.value.item.english)) {
        currentWord := GetRandomWord(filtered, WordKey, stats, u);
      }
    }
  }

  const CompleteLessonOne: string := "Complete Lesson 1 to unlock words for practice."
  const NoWordsAvailable: string := "No words available. Select at least one category in Settings."

  /** What a practice view shows: a question card for an item, or a message. */
  datatype Screen<T> = Quiz(word: T) | EmptyState(message: string)

  /** What the practice tab shows: the question card, or the empty-state message. */
  function PracticeScreen(unlocked: seq<IndexedWord>, current: Option<IndexedWord>): (s: Screen<IndexedWord>)
    ensures s.Quiz? <==> current.Some?
    ensures s.EmptyState? ==> (s.message == CompleteLessonOne <==> unlocked == [])
    ensures s.EmptyState? ==> (s.message == NoWordsAvailable <==> unlocked != [])
  {
    if current.Some? then Quiz(current.value)
    else EmptyState(if |unlocked| == 0 then CompleteLessonOne else NoWordsAvailable)
  }

  /**
   * After the re-pick, the empty state only appears for an empty filtered
   * list, and with nothing unlocked it asks to complete lesson 1.
   */
  lemma EmptyStateSpec(words: seq<VocabularyItem>, ids: seq<int>, selected: seq<string>,
                       current: Option<IndexedWord>, stats: map<int, Record>, u: real)
    ensures var unlocked := UnlockedWords(words, ids);
      var filtered := FilteredWords(unlocked, selected);
      var s := PracticeScreen(unlocked, Reconciled(filtered, current, stats, u));
      && (s.EmptyState? ==> filtered == [])
      && (s.EmptyState? && unlocked == [] ==> s.message == CompleteLessonOne)
  {
    var unlocked := UnlockedWords(words, ids);
    var filtered := FilteredWords(unlocked, selected);
    ReconciledSpec(filtered, current, stats, u);
  }

  /** The decimal digit for `d < 10`. */
  function Digit(d: nat): char
    requires d < 10
  {
    "0123456789"[d]
  }

  /** A number as JavaScript writes it in a template string. */
  function Decimal(n: nat): (s: string)
    ensures |s| > 0
    decreases n
  {
    if n < 10 then [Digit(n)] else Decimal(n / 10) + [Digit(n % 10)]
  }

  /** Reads a decimal numeral back (digits only). */
  function ParseDecimal(s: string): int
    decreases |s|
  {
    if s == [] then 0
    else 10 * ParseDecimal(s[..|s| - 1]) + DigitValue(s[|s| - 1])
  }

  function DigitValue(c: char): int
  {
    if '0' <= c <= '9' then c as int - '0' as int else 0
  }

  /** The numeral names the number: reading it back gives `n` again. */
  lemma {:induction false} DecimalRoundTrip(n: nat)
    ensures ParseDecimal(Decimal(n)) == n
    decreases n
  {
    var s := Decimal(n);
    if n < 10 {
      assert s[..0] == [];
    } else {
      DecimalRoundTrip(n / 10);
      assert s[..|s| - 1] == Decimal(n / 10);
    }
  }

  /** `${n}` for any integer `n`: a minus sign before negative numbers. */
  function IntText(n: int): string
  {
    if n < 0 then "-" + Decimal(-n) else Decimal(n)
  }

  /** The description of the "Lesson Locked" toast for lesson `lessonId`. */
  function LockedToast(lessonId: int): string
  {
    "Complete 80% of Lesson " + IntText(lessonId - 1) + " first to unlock this lesson."
  }

  /** For every catalog lesson but the first, the toast names the lesson just before it in the catalog. */
  lemma LockedToastNamesPredecessor(i: nat)
    requires 1 <= i < |Catalog|
    ensures LockedToast(Catalog[i].id) == "Complete 80% of Lesson " + Decimal(Catalog[i - 1].id) + " first to unlock this lesson."
    ensures ParseDecimal(Decimal(Catalog[i - 1].id)) == Catalog[i].id - 1
  {
    CatalogIds();
    DecimalRoundTrip(Catalog[i - 1].id);
  }
}
