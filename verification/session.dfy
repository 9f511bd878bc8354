/**
 * The quiz screen wired to the progress provider: the provider's
 * `isLevelCompleted` supplies the quiz's `alreadyCompleted`, and the calls
 * the quiz makes are carried out on the provider.
 */
module QuizSession {
  import opened Basics
  import opened Quiz
  import opened Progress
  import ProgressCache

  /** Carries out the quiz's progress calls in order; `now` is the current time. */
  function ApplyCalls(p: ProgressCache.Provider, calls: seq<ProgressCall>, now: string): ProgressCache.Provider
    decreases |calls|
  {
    if |calls| == 0 then p
    else
      var next := match calls[0]
        case IncrementCorrectAnswers => ProgressCache.IncrementCorrectAnswers(p, None)
        case MarkLevelCompleted(id) => ProgressCache.MarkLevelCompleted(p, id, now);
      ApplyCalls(next, calls[1..], now)
  }

  datatype Screen = Screen(game: Game, provider: ProgressCache.Provider)

  /** Whether an answer is taken as correct: no feedback shows and the chosen hour is the asked one. */
  predicate CorrectAnswer(g: Game, selected: int)
  {
    g.feedback.NoFeedback? && selected == g.currentHour
  }

  /**
   * With working storage and a coherent cache, carrying out the calls of one
   * answer keeps the cache coherent. A correct answer adds exactly one to the
   * stored correct answers, and once the quiz counts the required number of
   * correct answers the level is recorded as completed. A wrong answer, or
   * one given while feedback shows, leaves the provider alone.
   */
  lemma CallsUpdateProgress(p: ProgressCache.Provider, g: Game, selected: int, roll: real, now: string)
    requires 0.0 <= roll < 1.0
    requires p.client.available && ProgressCache.Coherent(p)
    ensures var o := HandleAnswer(g, selected, ProgressCache.IsLevelCompleted(p, LevelId), roll);
      var p' := ApplyCalls(p, o.calls, now);
      && ProgressCache.Coherent(p')
      && (CorrectAnswer(g, selected) ==>
        && p'.progress.totalCorrectAnswers == p.progress.totalCorrectAnswers + 1
        && p'.progress.sessionsPlayed == p.progress.sessionsPlayed
        && (o.game.correctCount >= RequiredCorrect ==> ProgressCache.IsLevelCompleted(p', LevelId)))
      && (!CorrectAnswer(g, selected) ==> p' == p)
  {
    var already := ProgressCache.IsLevelCompleted(p, LevelId);
    var o := HandleAnswer(g, selected, already, roll);
    if CorrectAnswer(g, selected) {
      var p1 := ProgressCache.IncrementCorrectAnswers(p, None);
      assert ApplyCalls(p, [IncrementCorrectAnswers], now) == ApplyCalls(p1, [], now);
      if g.correctCount + 1 >= RequiredCorrect && !already {
        assert o.calls == [IncrementCorrectAnswers, MarkLevelCompleted(LevelId)];
        assert o.calls[1..] == [MarkLevelCompleted(LevelId)];
        var p2 := ProgressCache.MarkLevelCompleted(p1, LevelId, now);
        assert ApplyCalls(p1, [MarkLevelCompleted(LevelId)], now) == ApplyCalls(p2, [], now);
      } else {
        assert o.calls == [IncrementCorrectAnswers];
      }
    }
  }

  /**
   * A click on an option, as the rendered screen handles it: the quiz decides
   * with the provider's cached completion flag, and its calls are carried out
   * on the provider. With working storage and a coherent cache the cache stays
   * coherent; a correct answer adds exactly one to the stored correct answers
   * and, from the required count on, the level reads as completed; any other
   * click leaves the progress alone.
   */
  function AnswerStep(s: Screen, selected: int, roll: real, now: string): (s': Screen)
    requires 0.0 <= roll < 1.0
    ensures s.provider.client.available && ProgressCache.Coherent(s.provider) ==>
      && ProgressCache.Coherent(s'.provider)
      && (CorrectAnswer(s.game, selected) ==>
        && s'.game.correctCount == s.game.correctCount + 1
        && s'.provider.progress.totalCorrectAnswers == s.provider.progress.totalCorrectAnswers + 1
        && s'.provider.progress.sessionsPlayed == s.provider.progress.sessionsPlayed
        && (s'.game.correctCount >= RequiredCorrect ==> ProgressCache.IsLevelCompleted(s'.provider, LevelId)))
      && (!CorrectAnswer(s.game, selected) ==> s'.provider == s.provider)
  {
    var o := HandleAnswer(s.game, selected, ProgressCache.IsLevelCompleted(s.provider, LevelId), roll);
    if s.provider.client.available && ProgressCache.Coherent(s.provider) then
      CallsUpdateProgress(s.provider, s.game, selected, roll, now);
      Screen(o.game, ApplyCalls(s.provider, o.calls, now))
    else
      Screen(o.game, ApplyCalls(s.provider, o.calls, now))
  }

  /** Once the cache lists the level, answers never mark it again. */
  lemma NoSecondMark(s: Screen, selected: int, roll: real)
    requires 0.0 <= roll < 1.0
    requires ProgressCache.IsLevelCompleted(s.provider, LevelId)
    ensures MarkLevelCompleted(LevelId) !in HandleAnswer(s.game, selected, ProgressCache.IsLevelCompleted(s.provider, LevelId), roll).calls
  {
  }
}
