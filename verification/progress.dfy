/** The learning progress record (`LearningProgress`) and its initial value. */
module Progress {
  import opened Basics

  datatype LearningProgress = LearningProgress(
    completedLevels: seq<string>,   // ids of completed levels
    lastPlayedAt: Option<string>,   // ISO timestamp of the last play, if any
    totalCorrectAnswers: int,
    sessionsPlayed: int)

  /** `createInitialProgress` */
  function CreateInitialProgress(): (p: LearningProgress)
    ensures p.completedLevels == []
    ensures p.totalCorrectAnswers == 0 && p.sessionsPlayed == 0
    ensures p.lastPlayedAt == None
    ensures Valid(p)
  {
    LearningProgress([], None, 0, 0)
  }

  /**
   * What the repository's operations maintain: non-negative counters and no
   * level listed twice.
   */
  predicate Valid(p: LearningProgress)
  {
    && p.totalCorrectAnswers >= 0
    && p.sessionsPlayed >= 0
    && Distinct(p.completedLevels)
  }
}
