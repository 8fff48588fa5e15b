/**
 * The vocabulary entries the app drills. `@/lib/list` (the word list and its
 * item type) is not part of this model: its shape below is the one its users
 * rely on (`spanish`, `english`, `category`, `lesson`).
 */
module Vocabulary {

  /** The translation direction: "es-en" asks for English, "en-es" for Spanish. */
  datatype Direction = EsEn | EnEs

  datatype VocabularyItem = VocabularyItem(spanish: string, english: string, category: string, lesson: int)

  /** `IndexedWord`: an entry together with its position `index` in the full word list. */
  datatype IndexedWord = IndexedWord(item: VocabularyItem, index: nat)
}
