/** The application shell around a lesson: which screen is shown, whether a lesson is
    running, and the learner's progress record, which a finished lesson updates. */
module App {
  import opened Types
  import Engine

  /** The progress record the application starts with. */
  const INITIAL_USER: UserProgress := UserProgress(320, 2, 4, [], 88)

  /** The record after a finished lesson worth `points`: the points are added, the
      streak grows by one, and nothing else changes. */
  function AfterGame(prev: UserProgress, points: int): (r: UserProgress)
    ensures r.points == prev.points + points
    ensures r.streak == prev.streak + 1
    ensures r.level == prev.level && r.mastered_ids == prev.mastered_ids && r.accuracy == prev.accuracy
  {
    prev.(points := prev.points + points, streak := prev.streak + 1)
  }

  function Sum(ps: seq<int>): int {
    if |ps| == 0 then 0 else ps[0] + Sum(ps[1..])
  }

  /** The record after a series of finished lessons, in the order they finished. */
  function AfterGames(prev: UserProgress, ps: seq<int>): UserProgress
    decreases |ps|
  {
    if |ps| == 0 then prev else AfterGames(AfterGame(prev, ps[0]), ps[1..])
  }

  /** However many lessons finish, the record gains exactly their total points and one
      streak day per lesson, and its level, mastered ids and accuracy stay as they were. */
  lemma {:induction false} GamesAccumulate(prev: UserProgress, ps: seq<int>)
    ensures AfterGames(prev, ps) == prev.(points := prev.points + Sum(ps), streak := prev.streak + |ps|)
    decreases |ps|
  {
    if |ps| > 0 {
      GamesAccumulate(AfterGame(prev, ps[0]), ps[1..]);
    }
  }

  class AppState {
    var view: AppView
    var isPlaying: bool
    var user: UserProgress

    /** The home screen, no lesson running, the initial progress record. */
    constructor ()
      ensures view == Home && !isPlaying && user == INITIAL_USER
    {
      view := Home;
      isPlaying := false;
      user := INITIAL_USER;
    }

    /** The navigation bar selects a screen. */
    method SelectView(v: AppView)
      modifies this
      ensures view == v && isPlaying == old(isPlaying) && user == old(user)
    {
      view := v;
    }

    /** The lesson card starts a lesson. */
    method StartLesson()
      modifies this
      ensures isPlaying && view == old(view) && user == old(user)
    {
      isPlaying := true;
    }

    /** A lesson reports its points: the record is updated and the home screen shows. */
    method HandleGameComplete(points: int)
      modifies this
      ensures user == AfterGame(old(user), points)
      ensures !isPlaying && view == Home
    {
      user := AfterGame(user, points);
      isPlaying := false;
      view := Home;
    }

    /** A lesson is abandoned: it stops, and the record and the screen stay as they were. */
    method Cancel()
      modifies this
      ensures !isPlaying && user == old(user) && view == old(view)
    {
      isPlaying := false;
    }
  }

  /** The completion button of a finished lesson hands its score to the shell, so the
      record gains exactly the score and a streak day. */
  method FinishLesson(app: AppState, game: Engine.GameEngine)
    requires game.Valid() && game.phase == Complete
    modifies app
    ensures app.user == AfterGame(old(app.user), game.score)
    ensures app.user.points == old(app.user.points) + game.score
    ensures !app.isPlaying && app.view == Home
  {
    var points := game.CompletionReport();
    app.HandleGameComplete(points);
  }
}
