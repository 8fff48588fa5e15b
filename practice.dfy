/**
 * `src/routes/practice.tsx` without its markup: practice over the learnable
 * items of every unlocked lesson, where an item is a word in one direction.
 * `getAllUnlockedItems` and `LearnableItem` live in `@/lib/words` and are
 * not part of this model: the first is a parameter, the second is given the
 * two fields the page reads.
 */
module Practice {
  import opened Wrappers
  import opened Stats
  import opened Vocabulary
  import opened Words
  import QuestionBox
  import App

  datatype LearnableItem = LearnableItem(word: VocabularyItem, direction: Direction)

  /** The identity the page compares items by: the English text and the direction. */
  predicate SameItem(a: LearnableItem, b: LearnableItem)
  {
    a.word.english == b.word.english && a.direction == b.direction
  }

  /**
   * Item identity is an equivalence, equal items are the same item, and the
   * same word asked in the other direction is a different item.
   */
  lemma SameItemSpec(a: LearnableItem, b: LearnableItem, c: LearnableItem)
    ensures SameItem(a, a)
    ensures SameItem(a, b) ==> SameItem(b, a)
    ensures SameItem(a, b) && SameItem(b, c) ==> SameItem(a, c)
    ensures !SameItem(a, LearnableItem(a.word, QuestionBox.Opposite(a.direction)))
    ensures SameItem(a, b) <==> (a.word.english, a.direction) == (b.word.english, b.direction)
  {
  }

  /** `unlockedItems.find(...)` is truthy: some item is the same item as `current`. */
  predicate Contains(items: seq<LearnableItem>, current: LearnableItem)
  {
    exists i :: i in items && SameItem(i, current)
  }

  /** The condition of the re-pick `useMemo`. */
  predicate NeedsRepick(items: seq<LearnableItem>, current: Option<LearnableItem>)
  {
    |items| > 0 && (current.None? || !Contains(items, current.value))
  }

  /** The current item after the re-pick ran with draw `u`. */
  function Reconciled<K>(items: seq<LearnableItem>, current: Option<LearnableItem>,
                         key: LearnableItem -> K, stats: map<K, Record>, u: real): Option<LearnableItem>
  {
    if NeedsRepick(items, current) then RandomWord(items, key, stats, u) else current
  }

  /**
   * After the re-pick a non-empty item list always has a current item that
   * it contains (as the same word and direction); a re-picked item is itself
   * one of the items; and a current item that is still unlocked is kept.
   */
  lemma ReconciledSpec<K>(items: seq<LearnableItem>, current: Option<LearnableItem>,
                          key: LearnableItem -> K, stats: map<K, Record>, u: real)
    ensures var c := Reconciled(items, current, key, stats, u);
      && (items != [] ==> c.Some? && Contains(items, c.value))
      && (NeedsRepick(items, current) ==> c.Some? && c.value in items)
      && (!NeedsRepick(items, current) ==> c == current)
  {
    var c := Reconciled(items, current, key, stats, u);
    if NeedsRepick(items, current) {
      assert c.value in items && SameItem(c.value, c.value);
    }
  }

  /** The one message the page shows when there is no current item. */
  function PracticeScreen(current: Option<LearnableItem>): (s: App.Screen<LearnableItem>)
    ensures s.Quiz? <==> current.Some?
    ensures s.EmptyState? ==> s.message == App.CompleteLessonOne
  {
    if current.Some? then App.Quiz(current.value) else App.EmptyState(App.CompleteLessonOne)
  }

  /** Answers on the practice page are given with `recordStats={false}`: the ledger never changes. */
  lemma PracticeNeverRecords<K>(stats: map<K, Record>, statKey: K, isCorrect: bool, answers: seq<bool>)
    ensures QuestionBox.AnswerEffect(QuestionBox.RecordsStats(Some(false)), isCorrect, stats, statKey) == stats
    ensures QuestionBox.RunAnswers(QuestionBox.RecordsStats(Some(false)), stats, statKey, answers) == stats
  {
    QuestionBox.UnrecordedAnswersKeepLedger(stats, statKey, answers);
  }

  /** The page's `currentItem` state, reading the shared ledger `store`. */
  class PracticePage<K(==)> {
    const store: StatsStore<K>
    /** `getAllUnlockedItems`: the items of the lessons a ledger unlocks. */
    const allUnlockedItems: map<K, Record> -> seq<LearnableItem>
    /** The ledger key `getRandomWord` reads for an item. */
    const key: LearnableItem -> K
    var currentItem: Option<LearnableItem>

    /** The initial state: a draw among the items the ledger unlocks at mount time. */
    constructor (store: StatsStore<K>, allUnlockedItems: map<K, Record> -> seq<LearnableItem>,
                 key: LearnableItem -> K, u: real)
      ensures this.store == store && this.allUnlockedItems == allUnlockedItems && this.key == key
      ensures currentItem == RandomWord(allUnlockedItems(store.stats), key, store.stats, u)
    {
      var first := GetRandomWord(allUnlockedItems(store.stats), key, store.stats, u);
      this.store := store;
      this.allUnlockedItems := allUnlockedItems;
      this.key := key;
      currentItem := first;
    }

    /**
     * `handleNext`: the items and the scores both come from one fresh read
     * of the ledger, the one it holds when the call happens.
     */
    method HandleNext(u: real)
      modifies this
      ensures currentItem == RandomWord(allUnlockedItems(store.stats), key, store.stats, u)
      ensures currentItem.None? <==> allUnlockedItems(store.stats) == []
    {
      var freshStats := store.stats;
      var freshItems := allUnlockedItems(freshStats);
      currentItem := GetRandomWord(freshItems, key, freshStats, u);
    }

    /** The re-pick `useMemo`, run when the unlocked items, the current item or the ledger change. */
    method Reconcile(u: real)
      modifies this
      ensures currentItem == Reconciled(allUnlockedItems(store.stats), old(currentItem), key, store.stats, u)
    {
      var unlockedItems := allUnlockedItems(store.stats);
      if |unlockedItems| > 0 && (currentItem.None? || !Contains(unlockedItems, currentItem.value)) {
        currentItem := GetRandomWord(unlockedItems, key, store.stats, u);
      }
    }

    /** The card for the current item: its word and direction, with recording switched off. */
    method CurrentCard(getStatKey: (string, Option<Direction>) -> K) returns (card: QuestionBox.Card<K>)
      requires currentItem.Some?
      ensures fresh(card)
      ensures card.word == currentItem.value.word && card.direction == Some(currentItem.value.direction)
      ensures !card.recordStats && card.store == store
    {
      card := new QuestionBox.Card(currentItem.value.word, Some(currentItem.value.direction), Some(false), getStatKey, store);
    }
  }
}
