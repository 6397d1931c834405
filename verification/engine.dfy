/** The lesson progression engine: the component state of the game screen and the
    handlers that change it. Each handler is a method; the callbacks the handlers
    hand to `setTimeout` are queued in `timers` and run by `FireTimer`, and the
    explanation requests started on entering the reinforce phase are queued in
    `fetches` and completed by `ResolveFetch`, in any order. The effect that runs
    when the phase changes is part of the method that changes the phase. */
module Engine {
  import opened Types
  import opened Text
  import opened Options
  import opened Shuffling
  import opened Words

  /** The highlight shown after an attempt. */
  datatype Feedback = NoFeedback | Correct | Incorrect

  /** The two callbacks the handlers schedule, each 800 ms after the click. Both use
      the same delay, so they run in the order they were scheduled. */
  datatype Timer =
    | ClearFeedbackThenReplace  // after a correct identify: clear the highlight, go to REPLACE
    | ClearFeedback             // after a wrong attempt: clear the highlight

  const IDENTIFY_POINTS: nat := 5
  const REPLACE_POINTS: nat := 10

  /** A score change the engine may make: none, an identify reward or a replace reward. */
  predicate ScoreStep(before: nat, after: nat) {
    after == before || after == before + IDENTIFY_POINTS || after == before + REPLACE_POINTS
  }

  /** The explanation shown once a request completes: the service's text when there
      is some, otherwise (no text, or empty text) the usage notes of the item that
      was current when the request started. */
  function ExplanationText(reply: Option<string>, item: WordPair): (r: string)
    ensures reply.Some? && reply.value != "" ==> r == reply.value
    ensures reply.None? || reply.value == "" ==> r == item.usage_notes
  {
    match reply
    case Some(text) => if text != "" then text else item.usage_notes
    case None => item.usage_notes
  }

  /** Whatever the service answers, the explanation of a stored entry is never empty,
      so the loading placeholder disappears once a request completes. */
  lemma ExplanationNeverEmpty(reply: Option<string>, i: nat)
    requires i < |INITIAL_WORD_PAIRS|
    ensures ExplanationText(reply, INITIAL_WORD_PAIRS[i]) != ""
  {
    EntriesWellFormed();
  }

  /** The options in a random order: `sort` with a comparator that answers at random.
      The random numbers are `picks`; whatever they are, the result is an arrangement
      of the candidates, and every arrangement has some `picks` that gives it. */
  method ArrangeOptions(candidates: seq<string>, picks: seq<nat>) returns (arranged: seq<string>)
    ensures multiset(arranged) == multiset(candidates)
  {
    arranged := Shuffle(candidates, picks);
  }

  class GameEngine {
    /** The content store the engine walks, in order. */
    const words: seq<WordPair>
    var currentIndex: nat
    var phase: GamePhase
    var options: seq<string>
    var feedback: Feedback
    var explanation: string
    var score: nat
    /** Scheduled callbacks that have not run yet, in the order they will run. */
    var timers: seq<Timer>
    /** Explanation requests that have not completed, each with the item that was
        current when it started. */
    var fetches: seq<WordPair>

    /** The invariant every reachable state keeps: the index stays in the store,
        the score is a multiple of five, the session only completes on the last
        item, the options shown during REPLACE are an arrangement of the current
        item's candidates, and every pending request is about a stored item. */
    ghost predicate Valid()
      reads this
    {
      && currentIndex < |words|
      && score % 5 == 0
      && (phase == Complete ==> currentIndex == |words| - 1)
      && (phase == Replace ==> multiset(options) == multiset(Candidates(words, words[currentIndex])))
      && (forall k :: 0 <= k < |fetches| ==> fetches[k] in words)
    }

    /** The item on screen. */
    function CurrentWord(): (w: WordPair)
      reads this
      requires currentIndex < |words|
      ensures w in words
    {
      words[currentIndex]
    }

    /** A fresh game screen: first item, IDENTIFY, no score, no options, no highlight,
        no explanation, nothing pending. */
    constructor ()
      ensures words == INITIAL_WORD_PAIRS
      ensures Valid()
      ensures currentIndex == 0 && phase == Identify && score == 0
      ensures options == [] && feedback == NoFeedback && explanation == ""
      ensures timers == [] && fetches == []
    {
      words := INITIAL_WORD_PAIRS;
      StoreShape();
      currentIndex := 0;
      phase := Identify;
      options := [];
      feedback := NoFeedback;
      explanation := "";
      score := 0;
      timers := [];
      fetches := [];
    }

    /** A click on a word of the mixed sentence. A match highlights it, adds five
        points and schedules the move to REPLACE; a miss highlights the mistake and
        schedules clearing it. Nothing checks the phase, so every further matching
        click before the callback runs adds five more points and schedules another
        move. */
    method HandleIdentify(word: string)
      requires Valid()
      modifies this
      ensures Valid()
      ensures ScoreStep(old(score), score)
      ensures IdentifyMatches(word, CurrentWord().dirty_word) ==>
        feedback == Correct && score == old(score) + IDENTIFY_POINTS
        && timers == old(timers) + [ClearFeedbackThenReplace]
      ensures !IdentifyMatches(word, CurrentWord().dirty_word) ==>
        feedback == Incorrect && score == old(score) && timers == old(timers) + [ClearFeedback]
      ensures currentIndex == old(currentIndex) && phase == old(phase) && options == old(options)
      ensures explanation == old(explanation) && fetches == old(fetches)
    {
      var cleanWord := StripPunctuation(word);
      if ToLower(cleanWord) == ToLower(CurrentWord().dirty_word) {
        feedback := Correct;
        score := score + IDENTIFY_POINTS;
        timers := timers + [ClearFeedbackThenReplace];
      } else {
        feedback := Incorrect;
        timers := timers + [ClearFeedback];
      }
    }

    /** The oldest scheduled callback runs. Both clear the highlight; the one a match
        scheduled also sets REPLACE, whatever the phase is by then, and when that
        changes the phase the options are rebuilt: the current item's candidates
        arranged by the random `picks`. */
    method FireTimer(picks: seq<nat>)
      requires Valid()
      requires timers != []
      modifies this
      ensures Valid()
      ensures timers == old(timers)[1..]
      ensures feedback == NoFeedback
      ensures old(timers)[0] == ClearFeedbackThenReplace ==> phase == Replace
      ensures if old(timers)[0] == ClearFeedbackThenReplace && old(phase) != Replace
        then multiset(options) == multiset(Candidates(words, words[currentIndex]))
        else phase == old(phase) && options == old(options)
      ensures currentIndex == old(currentIndex) && score == old(score)
      ensures explanation == old(explanation) && fetches == old(fetches)
    {
      var callback := timers[0];
      timers := timers[1..];
      feedback := NoFeedback;
      if callback == ClearFeedbackThenReplace && phase != Replace {
        EnterReplace(picks);
      }
    }

    /** The phase becomes REPLACE and the effect rebuilds the options: the current
        item's candidates arranged by the random `picks`. */
    method EnterReplace(picks: seq<nat>)
      requires Valid()
      modifies this
      ensures Valid()
      ensures phase == Replace
      ensures multiset(options) == multiset(Candidates(words, words[currentIndex]))
      ensures currentIndex == old(currentIndex) && score == old(score) && feedback == old(feedback)
      ensures explanation == old(explanation) && timers == old(timers) && fetches == old(fetches)
    {
      var arranged := ArrangeOptions(Candidates(words, words[currentIndex]), picks);
      phase := Replace;
      options := arranged;
    }

    /** A click on an option. The exact pure word (case-sensitive) highlights it,
        adds ten points and moves to REINFORCE at once, which starts an explanation
        request for the current item when the phase actually changes; any other
        option highlights the mistake and schedules clearing it. */
    method HandleReplace(option: string)
      requires Valid()
      modifies this
      ensures Valid()
      ensures ScoreStep(old(score), score)
      ensures option == CurrentWord().pure_word ==>
        feedback == Correct && score == old(score) + REPLACE_POINTS && phase == Reinforce
        && timers == old(timers)
        && fetches == old(fetches) + (if old(phase) != Reinforce then [CurrentWord()] else [])
      ensures option != CurrentWord().pure_word ==>
        feedback == Incorrect && score == old(score) && phase == old(phase)
        && timers == old(timers) + [ClearFeedback] && fetches == old(fetches)
      ensures currentIndex == old(currentIndex) && options == old(options)
      ensures explanation == old(explanation)
    {
      if option == CurrentWord().pure_word {
        feedback := Correct;
        score := score + REPLACE_POINTS;
        if phase != Reinforce {
          phase := Reinforce;
          fetches := fetches + [CurrentWord()];
        }
      } else {
        feedback := Incorrect;
        timers := timers + [ClearFeedback];
      }
    }

    /** The continue button. Before the last item it moves to the next item in
        IDENTIFY with the highlight and the explanation cleared; on the last item it
        completes the session and changes nothing else. */
    method NextQuestion()
      requires Valid()
      modifies this
      ensures Valid()
      ensures old(currentIndex) < |words| - 1 ==>
        currentIndex == old(currentIndex) + 1 && phase == Identify
        && feedback == NoFeedback && explanation == ""
      ensures old(currentIndex) == |words| - 1 ==>
        currentIndex == old(currentIndex) && phase == Complete
        && feedback == old(feedback) && explanation == old(explanation)
      ensures score == old(score) && options == old(options)
      ensures timers == old(timers) && fetches == old(fetches)
    {
      if currentIndex < |words| - 1 {
        currentIndex := currentIndex + 1;
        phase := Identify;
        feedback := NoFeedback;
        explanation := "";
      } else {
        phase := Complete;
      }
    }

    /** Explanation request `k` completes with the service's `reply`. There is no
        check that its item is still the current one: the text is shown whatever
        item is on screen by then. */
    method ResolveFetch(k: nat, reply: Option<string>)
      requires Valid()
      requires k < |fetches|
      modifies this
      ensures Valid()
      ensures explanation == ExplanationText(reply, old(fetches)[k])
      ensures fetches == old(fetches)[..k] + old(fetches)[k + 1..]
      ensures currentIndex == old(currentIndex) && phase == old(phase) && score == old(score)
      ensures options == old(options) && feedback == old(feedback) && timers == old(timers)
    {
      explanation := ExplanationText(reply, fetches[k]);
      fetches := fetches[..k] + fetches[k + 1..];
    }

    /** The button of the completion screen reports the score, and only the score. */
    method CompletionReport() returns (points: nat)
      requires Valid()
      requires phase == Complete
      ensures points == score
      ensures points % 5 == 0
    {
      points := score;
    }
  }

  /** On the stored list, the options on screen during REPLACE are four, with the
      answer among them exactly once. */
  lemma OptionsOnScreen(game: GameEngine)
    requires game.Valid() && game.phase == Replace && game.words == INITIAL_WORD_PAIRS
    ensures |game.options| == 4
    ensures multiset(game.options)[game.CurrentWord().pure_word] == 1
  {
    FourOptionsEach(game.currentIndex);
    assert |game.options| == |multiset(game.options)|;
  }

  /** From the first item in IDENTIFY with nothing scheduled, a player who answers
      every item right at the first attempt, letting each scheduled callback run
      before the next click, ends on COMPLETE with fifteen more points per item. The
      identify handler is given the loanword itself. */
  method PlayPerfectly(game: GameEngine, picks: seq<nat>)
    requires game.Valid()
    requires game.currentIndex == 0 && game.phase == Identify && game.timers == []
    requires forall k :: 0 <= k < |game.words| ==> HasNoPunctuation(game.words[k].dirty_word)
    modifies game
    ensures game.Valid()
    ensures game.phase == Complete && game.currentIndex == |game.words| - 1
    ensures game.score == old(game.score) + 15 * |game.words|
  {
    var i := 0;
    while i < |game.words|
      invariant 0 <= i <= |game.words|
      invariant game.Valid() && game.timers == []
      invariant game.score == old(game.score) + 15 * i
      invariant i < |game.words| ==> game.currentIndex == i && game.phase == Identify
      invariant i == |game.words| ==> game.phase == Complete
    {
      var word := game.CurrentWord();
      MatchesItself(word.dirty_word);
      game.HandleIdentify(word.dirty_word);
      game.FireTimer(picks);
      game.HandleReplace(word.pure_word);
      game.NextQuestion();
      i := i + 1;
    }
  }

  /** A perfect run through the five stored items reports 75 points. */
  method PerfectSession(picks: seq<nat>) returns (points: nat, finalPhase: GamePhase)
    ensures points == 75
    ensures finalPhase == Complete
  {
    var game := new GameEngine();
    EntriesWellFormed();
    PlayPerfectly(game, picks);
    points := game.CompletionReport();
    finalPhase := game.phase;
  }

  /** A double click on the right word schedules two moves to REPLACE. If the player
      finishes the item before the second one runs, the second one lands on the next
      item and skips its identify step, and the first item paid ten points extra. */
  method DoubleClick(game: GameEngine, picks: seq<nat>)
    requires game.Valid()
    requires game.phase == Identify && game.timers == [] && game.currentIndex < |game.words| - 1
    requires HasNoPunctuation(game.CurrentWord().dirty_word)
    modifies game
    ensures game.Valid()
    ensures game.currentIndex == old(game.currentIndex) + 1 && game.phase == Replace
    ensures game.score == old(game.score) + 20
  {
    var first := game.CurrentWord();
    MatchesItself(first.dirty_word);
    game.HandleIdentify(first.dirty_word);
    game.HandleIdentify(first.dirty_word);
    game.FireTimer(picks);
    game.HandleReplace(first.pure_word);
    game.NextQuestion();
    game.FireTimer(picks);
  }

  /** The double click on the first stored item: the second item opens in REPLACE
      with 20 points. */
  method DoubleClickSkipsIdentify(picks: seq<nat>) returns (index: nat, phaseAfter: GamePhase, points: nat)
    ensures index == 1 && phaseAfter == Replace && points == 20
  {
    var game := new GameEngine();
    EntriesWellFormed();
    DoubleClick(game, picks);
    index, phaseAfter, points := game.currentIndex, game.phase, game.score;
  }

  /** An item is answered right and the player moves on before its explanation request
      completes; when it completes without text, the next item's screen shows the
      previous item's usage notes. */
  method LateExplanation(game: GameEngine, picks: seq<nat>)
    requires game.Valid()
    requires game.phase == Identify && game.timers == [] && game.fetches == []
    requires game.currentIndex < |game.words| - 1
    requires HasNoPunctuation(game.CurrentWord().dirty_word)
    modifies game
    ensures game.Valid()
    ensures game.currentIndex == old(game.currentIndex) + 1
    ensures game.explanation == game.words[old(game.currentIndex)].usage_notes
  {
    var first := game.CurrentWord();
    MatchesItself(first.dirty_word);
    game.HandleIdentify(first.dirty_word);
    game.FireTimer(picks);
    game.HandleReplace(first.pure_word);
    game.NextQuestion();
    game.ResolveFetch(0, None);
  }

  /** The late request for the first stored item shows its notes on the second item. */
  method StaleExplanation(picks: seq<nat>) returns (index: nat, shown: string)
    ensures index == 1 && shown == INITIAL_WORD_PAIRS[0].usage_notes
  {
    var game := new GameEngine();
    EntriesWellFormed();
    LateExplanation(game, picks);
    index, shown := game.currentIndex, game.explanation;
  }
}
