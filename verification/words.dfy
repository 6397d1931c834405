/** The lesson content store: the fixed, ordered list of five exercises the engine
    walks through, and the facts about it that the engine relies on. */
module Words {
  import opened Types
  import opened Text
  import opened Options

  const INITIAL_WORD_PAIRS: seq<WordPair> := [
    WordPair(
      "wp1", "Lazim", "Pêwîst", "Necessary / Must",
      "Lazim e ez herim.", "Pêwîst e ez herim.",
      "It is necessary that I go.", "Common Expressions", Beginner,
      "Lazim is an Arabic loanword widely used. Pêwîst is the authentic Kurdish equivalent."),
    WordPair(
      "wp2", "Heval", "Dost", "Friend",
      "Ew hevalê min ê baş e.", "Ew dostê min ê baş e.",
      "He is my good friend.", "Social", Beginner,
      "While heval is common, dost carries a deeper sense of purity in certain contexts."),
    WordPair(
      "wp3", "Fikre", "Raman", "Idea / Thought",
      "Ev fikreke pir baş e.", "Ev ramaneke pir baş e.",
      "This is a very good idea.", "Abstract Concepts", Intermediate,
      "Fikr (Arabic) is often replaced by Raman in literary Kurdish."),
    WordPair(
      "wp4", "Muntezir", "Hêvîdar", "Waiting / Hopeful",
      "Ez muntezirê te me.", "Ez hêvîdarê te me.",
      "I am waiting for you.", "Emotions", Intermediate,
      "Hêvîdar literally means holder of hope/expectation."),
    WordPair(
      "wp5", "Cewab", "Bersiv", "Answer",
      "Cewaba min çi ye?", "Bersiva min çi ye?",
      "What is my answer?", "Social", Beginner,
      "Bersiv is the standardized Kurmanci word for response.")
  ]

  /** The store is non-empty (so reading entry 0 is in range), has five entries, and
      both its ids and its pure words are pairwise distinct. */
  lemma StoreShape()
    ensures |INITIAL_WORD_PAIRS| == 5
    ensures IdsDistinct(INITIAL_WORD_PAIRS)
    ensures PureWordsDistinct(INITIAL_WORD_PAIRS)
  {
    IdsAreDistinct();
    PureWordsAreDistinct();
  }

  /** The ids `wp1` to `wp5` differ in their last character. */
  lemma IdsAreDistinct()
    ensures IdsDistinct(INITIAL_WORD_PAIRS)
  {
    var w := INITIAL_WORD_PAIRS;
    forall i, j | 0 <= i < j < |w| ensures w[i].id != w[j].id {
      assert w[i].id[2] != w[j].id[2];
    }
  }

  /** The pure words differ in their first character or in their length. */
  lemma PureWordsAreDistinct()
    ensures PureWordsDistinct(INITIAL_WORD_PAIRS)
  {
    var w := INITIAL_WORD_PAIRS;
    forall i, j | 0 <= i < j < |w| ensures w[i].pure_word != w[j].pure_word {
      assert w[i].pure_word[0] != w[j].pure_word[0] || |w[i].pure_word| != |w[j].pure_word|;
    }
  }

  /** Every loanword is free of punctuation, and every entry has non-empty usage notes. */
  lemma EntriesWellFormed()
    ensures forall i :: 0 <= i < |INITIAL_WORD_PAIRS| ==> HasNoPunctuation(INITIAL_WORD_PAIRS[i].dirty_word)
    ensures forall i :: 0 <= i < |INITIAL_WORD_PAIRS| ==> INITIAL_WORD_PAIRS[i].usage_notes != ""
  {
  }

  /** Some button of a mixed sentence is accepted as the loanword. */
  predicate CanIdentifyIn(sentence: string, dirtyWord: string) {
    exists t :: t in Tokens(sentence) && IdentifyMatches(t, dirtyWord)
  }

  /** Some button of the entry's mixed sentence is accepted as the entry's loanword. */
  predicate CanIdentify(w: WordPair) {
    CanIdentifyIn(w.example_mixed, w.dirty_word)
  }

  /** A token that, without punctuation, is not as long as the loanword never matches it. */
  lemma NoMatchByLength(t: string, dirtyWord: string)
    requires |StripPunctuation(t)| != |dirtyWord|
    ensures !IdentifyMatches(t, dirtyWord)
  {
    if IdentifyMatches(t, dirtyWord) {
      MatchNeedsEqualLength(t, dirtyWord);
    }
  }

  /** A sentence none of whose tokens matches: `long` is the one token at least as long
      as the loanword, it carries no punctuation and its length still differs. */
  lemma NoTokenMatches(sentence: string, dirtyWord: string, parts: seq<string>, long: string)
    requires |parts| >= 1 && forall t :: t in parts ==> ' ' !in t
    requires Join(parts, ' ') == sentence
    requires HasNoPunctuation(long) && |long| != |dirtyWord|
    requires forall t :: t in parts && t != long ==> |t| < |dirtyWord|
    ensures !CanIdentifyIn(sentence, dirtyWord)
  {
    SplitJoin(parts, ' ');
    StripClean(long);
    forall t | t in parts
      ensures !IdentifyMatches(t, dirtyWord)
    {
      NoMatchByLength(t, dirtyWord);
    }
  }

  /** A sentence that has the loanword itself, without punctuation, as a token. */
  lemma TokenMatches(sentence: string, dirtyWord: string, parts: seq<string>, k: nat)
    requires |parts| >= 1 && forall t :: t in parts ==> ' ' !in t
    requires Join(parts, ' ') == sentence
    requires k < |parts| && parts[k] == dirtyWord && HasNoPunctuation(dirtyWord)
    ensures CanIdentifyIn(sentence, dirtyWord)
  {
    SplitJoin(parts, ' ');
    MatchesItself(dirtyWord);
    assert parts[k] in Tokens(sentence);
  }

  // The five mixed sentences, each written as its space-separated pieces.

  lemma FirstPieces()
    ensures Join(["Lazim", "e", "ez", "herim."], ' ') == "Lazim e ez herim."
  {
    JoinFour("Lazim", "e", "ez", "herim.", ' ');
    assert "Lazim" + " " + "e" + " " + "ez" + " " + "herim." == "Lazim e ez herim.";
  }

  lemma SecondPieces()
    ensures Join(["Ew", "hevalê", "min", "ê", "baş", "e."], ' ') == "Ew hevalê min ê baş e."
  {
    JoinSix("Ew", "hevalê", "min", "ê", "baş", "e.", ' ');
    assert "Ew" + " " + "hevalê" + " " + "min" + " " + "ê" + " " + "baş" + " " + "e." == "Ew hevalê min ê baş e.";
  }

  lemma ThirdPieces()
    ensures Join(["Ev", "fikreke", "pir", "baş", "e."], ' ') == "Ev fikreke pir baş e."
  {
    JoinFive("Ev", "fikreke", "pir", "baş", "e.", ' ');
    assert "Ev" + " " + "fikreke" + " " + "pir" + " " + "baş" + " " + "e." == "Ev fikreke pir baş e.";
  }

  lemma FourthPieces()
    ensures Join(["Ez", "muntezirê", "te", "me."], ' ') == "Ez muntezirê te me."
  {
    JoinFour("Ez", "muntezirê", "te", "me.", ' ');
    assert "Ez" + " " + "muntezirê" + " " + "te" + " " + "me." == "Ez muntezirê te me.";
  }

  lemma FifthPieces()
    ensures Join(["Cewaba", "min", "çi", "ye?"], ' ') == "Cewaba min çi ye?"
  {
    JoinFour("Cewaba", "min", "çi", "ye?", ' ');
    assert "Cewaba" + " " + "min" + " " + "çi" + " " + "ye?" == "Cewaba min çi ye?";
  }

  /** The first sentence has the token `Lazim`, which is its loanword. */
  lemma FirstSentenceMatches()
    ensures CanIdentifyIn("Lazim e ez herim.", "Lazim")
  {
    FirstPieces();
    TokenMatches("Lazim e ez herim.", "Lazim", ["Lazim", "e", "ez", "herim."], 0);
  }

  /** `hevalê` is one character longer than `Heval`; the other tokens are shorter. */
  lemma SecondSentenceNoMatch()
    ensures !CanIdentifyIn("Ew hevalê min ê baş e.", "Heval")
  {
    SecondPieces();
    NoTokenMatches("Ew hevalê min ê baş e.", "Heval", ["Ew", "hevalê", "min", "ê", "baş", "e."], "hevalê");
  }

  /** `fikreke` is two characters longer than `Fikre`; the other tokens are shorter. */
  lemma ThirdSentenceNoMatch()
    ensures !CanIdentifyIn("Ev fikreke pir baş e.", "Fikre")
  {
    ThirdPieces();
    NoTokenMatches("Ev fikreke pir baş e.", "Fikre", ["Ev", "fikreke", "pir", "baş", "e."], "fikreke");
  }

  /** `muntezirê` is one character longer than `Muntezir`; the other tokens are shorter. */
  lemma FourthSentenceNoMatch()
    ensures !CanIdentifyIn("Ez muntezirê te me.", "Muntezir")
  {
    FourthPieces();
    NoTokenMatches("Ez muntezirê te me.", "Muntezir", ["Ez", "muntezirê", "te", "me."], "muntezirê");
  }

  /** `Cewaba` is one character longer than `Cewab`; the other tokens are shorter. */
  lemma FifthSentenceNoMatch()
    ensures !CanIdentifyIn("Cewaba min çi ye?", "Cewab")
  {
    FifthPieces();
    NoTokenMatches("Cewaba min çi ye?", "Cewab", ["Cewaba", "min", "çi", "ye?"], "Cewaba");
  }

  lemma FirstIdentifiable()
    ensures CanIdentify(INITIAL_WORD_PAIRS[0])
  {
    FirstSentenceMatches();
  }

  lemma SecondNotIdentifiable()
    ensures !CanIdentify(INITIAL_WORD_PAIRS[1])
  {
    SecondSentenceNoMatch();
  }

  lemma ThirdNotIdentifiable()
    ensures !CanIdentify(INITIAL_WORD_PAIRS[2])
  {
    ThirdSentenceNoMatch();
  }

  lemma FourthNotIdentifiable()
    ensures !CanIdentify(INITIAL_WORD_PAIRS[3])
  {
    FourthSentenceNoMatch();
  }

  lemma FifthNotIdentifiable()
    ensures !CanIdentify(INITIAL_WORD_PAIRS[4])
  {
    FifthSentenceNoMatch();
  }

  /** Only the first entry can get past the identify step: the other sentences carry
      only inflected forms of the loanword (`hevalê`, `fikreke`, `muntezirê`, `Cewaba`),
      each one character longer than it. */
  lemma IdentifyReachableOnlyFirst(i: nat)
    requires i < |INITIAL_WORD_PAIRS|
    ensures CanIdentify(INITIAL_WORD_PAIRS[i]) <==> i == 0
  {
    if i == 0 {
      FirstIdentifiable();
    } else if i == 1 {
      SecondNotIdentifiable();
    } else if i == 2 {
      ThirdNotIdentifiable();
    } else if i == 3 {
      FourthNotIdentifiable();
    } else {
      FifthNotIdentifiable();
    }
  }

  /** For every entry the replace step offers four options, the answer exactly once. */
  lemma FourOptionsEach(i: nat)
    requires i < |INITIAL_WORD_PAIRS|
    ensures |Candidates(INITIAL_WORD_PAIRS, INITIAL_WORD_PAIRS[i])| == 4
    ensures multiset(Candidates(INITIAL_WORD_PAIRS, INITIAL_WORD_PAIRS[i]))[INITIAL_WORD_PAIRS[i].pure_word] == 1
  {
    StoreShape();
    CandidatesFor(INITIAL_WORD_PAIRS, i);
  }
}
