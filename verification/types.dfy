/** The records and enumerations shared by the lesson engine and the application shell. */
module Types {

  /** A value that may be missing (`undefined` on the other side of an asynchronous call). */
  datatype Option<T> = None | Some(value: T)

  /** The three authored difficulty levels; the field's type admits no other value. */
  datatype Difficulty = Beginner | Intermediate | Advanced

  /** One loanword / pure-word exercise of the content store. */
  datatype WordPair = WordPair(
    id: string,
    dirty_word: string,
    pure_word: string,
    meaning_english: string,
    example_mixed: string,
    example_pure: string,
    meaning_sentence_english: string,
    category: string,
    difficulty_level: Difficulty,
    usage_notes: string)

  /** The phases the lesson engine walks through for each item. */
  datatype GamePhase = Identify | Replace | Reinforce | Complete

  /** The summary record the application keeps about its user. */
  datatype UserProgress = UserProgress(
    points: int,
    level: int,
    streak: int,
    mastered_ids: seq<string>,
    accuracy: int)

  /** The four screens of the application shell. */
  datatype AppView = Home | Learn | Profile | Discover
}
