/**
 * `src/components/QuestionBox.tsx` without its markup: which side of the
 * card is asked, the reveal flag, and the ledger update an answer causes.
 */
module QuestionBox {
  import opened Wrappers
  import opened Stats
  import opened Vocabulary

  /**
   * The text asked: the Spanish side for "es-en", the English side for any
   * other direction, including none at all (App.tsx passes no direction).
   */
  function QuestionText(word: VocabularyItem, direction: Option<Direction>): string
  {
    if direction == Some(EsEn) then word.spanish else word.english
  }

  /** The text revealed as the answer: the side that is not asked. */
  function AnswerText(word: VocabularyItem, direction: Option<Direction>): string
  {
    if direction == Some(EsEn) then word.english else word.spanish
  }

  function Opposite(d: Direction): Direction
  {
    if d == EsEn then EnEs else EsEn
  }

  /**
   * The card always shows both sides of the word, one asked and one
   * revealed, and the opposite direction swaps them.
   */
  lemma CardSides(word: VocabularyItem, direction: Option<Direction>)
    ensures [QuestionText(word, direction), AnswerText(word, direction)] == [word.spanish, word.english]
         || [QuestionText(word, direction), AnswerText(word, direction)] == [word.english, word.spanish]
    ensures word.spanish != word.english ==>
      (QuestionText(word, direction) == word.spanish <==> direction == Some(EsEn))
    ensures direction.Some? ==>
      QuestionText(word, Some(Opposite(direction.value))) == AnswerText(word, direction) &&
      AnswerText(word, Some(Opposite(direction.value))) == QuestionText(word, direction)
  {
  }

  /** `recordStats = true`: an absent prop records answers. */
  function RecordsStats(recordStats: Option<bool>): bool
  {
    if recordStats.Some? then recordStats.value else true
  }

  /**
   * The ledger after `handleAnswer(isCorrect)`: with recording on, exactly
   * the record of `statKey` takes one more correct or wrong answer; with
   * recording off, nothing changes.
   */
  function AnswerEffect<K>(recordStats: bool, isCorrect: bool, stats: map<K, Record>, statKey: K): (r: map<K, Record>)
    ensures !recordStats ==> r == stats
    ensures recordStats ==>
      && r.Keys == stats.Keys + {statKey}
      && Lookup(r, statKey).total == Lookup(stats, statKey).total + 1
      && Lookup(r, statKey).correct == Lookup(stats, statKey).correct + (if isCorrect then 1 else 0)
      && Lookup(r, statKey).incorrect == Lookup(stats, statKey).incorrect + (if isCorrect then 0 else 1)
      && (forall j :: j in stats && j != statKey ==> r[j] == stats[j])
    ensures Consistent(stats) ==> Consistent(r)
  {
    if !recordStats then stats
    else if isCorrect then RecordCorrect(stats, statKey)
    else RecordWrong(stats, statKey)
  }

  /** Any run of answers given with recording off leaves the ledger as it was. */
  lemma {:induction false} UnrecordedAnswersKeepLedger<K>(stats: map<K, Record>, statKey: K, answers: seq<bool>)
    ensures RunAnswers(false, stats, statKey, answers) == stats
    decreases |answers|
  {
    if answers != [] {
      UnrecordedAnswersKeepLedger(stats, statKey, answers[1..]);
    }
  }

  /** The ledger after the given answers on one card, left to right. */
  function RunAnswers<K>(recordStats: bool, stats: map<K, Record>, statKey: K, answers: seq<bool>): map<K, Record>
    decreases |answers|
  {
    if answers == [] then stats
    else RunAnswers(recordStats, AnswerEffect(recordStats, answers[0], stats, statKey), statKey, answers[1..])
  }

  /** With recording on, `n` answers on a card add `n` attempts to its key. */
  lemma {:induction false} RecordedAnswersCount<K>(stats: map<K, Record>, statKey: K, answers: seq<bool>)
    ensures Lookup(RunAnswers(true, stats, statKey, answers), statKey).total == Lookup(stats, statKey).total + |answers|
    decreases |answers|
  {
    if answers != [] {
      RecordedAnswersCount(AnswerEffect(true, answers[0], stats, statKey), statKey, answers[1..]);
    }
  }

  datatype Control = ShowAnswerButton | KnewItButton | NopeButton

  /** The controls under the card: "Show Answer" while hidden, the two answer buttons once revealed. */
  function Controls(showAnswer: bool): (cs: seq<Control>)
    ensures KnewItButton in cs <==> showAnswer
    ensures NopeButton in cs <==> showAnswer
    ensures ShowAnswerButton in cs <==> !showAnswer
  {
    if showAnswer then [KnewItButton, NopeButton] else [ShowAnswerButton]
  }

  /** One mounted question card, bound to the shared ledger `store`. */
  class Card<K(==)> {
    const word: VocabularyItem
    const direction: Option<Direction>
    const recordStats: bool
    const statKey: K
    const store: StatsStore<K>
    var showAnswer: bool
    /** How many times `onNext` has been called. */
    var nextCalls: nat

    constructor (word: VocabularyItem, direction: Option<Direction>, recordStats: Option<bool>,
                 getStatKey: (string, Option<Direction>) -> K, store: StatsStore<K>)
      ensures this.word == word && this.direction == direction && this.store == store
      ensures this.recordStats == RecordsStats(recordStats)
      ensures statKey == getStatKey(word.english, direction)
      ensures !showAnswer && nextCalls == 0
    {
      this.word := word;
      this.direction := direction;
      this.recordStats := RecordsStats(recordStats);
      this.statKey := getStatKey(word.english, direction);
      this.store := store;
      showAnswer := false;
      nextCalls := 0;
    }

    /** "Show Answer". */
    method Reveal()
      modifies this
      ensures showAnswer && nextCalls == old(nextCalls)
    {
      showAnswer := true;
    }

    /** `handleAnswer`: at most one ledger update, then hide the answer and call `onNext` once. */
    method HandleAnswer(isCorrect: bool)
      requires store.Valid()
      modifies this, store
      ensures store.Valid()
      ensures store.stats == AnswerEffect(recordStats, isCorrect, old(store.stats), statKey)
      ensures !showAnswer && nextCalls == old(nextCalls) + 1
    {
      if recordStats {
        if isCorrect {
          store.AddCorrectAnswer(statKey);
        } else {
          store.AddWrongAnswer(statKey);
        }
      }
      showAnswer := false;
      nextCalls := nextCalls + 1;
    }
  }
}
