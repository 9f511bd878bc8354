/**
 * `LocalProgressRepository`: the learning progress stored as one record under
 * the key "learning_progress" through a storage client.
 *
 * Each operation reads the record, changes it, and writes it back; the store
 * after the operation is the result. The current time is a parameter.
 */
module Repository {
  import opened Basics
  import opened Storage
  import opened Records
  import opened Progress

  const ProgressKey: string := "learning_progress"

  /** The JSON object `saveProgress` writes; an absent `lastPlayedAt` is omitted. */
  function Serialize(p: LearningProgress): Json
  {
    Object(EmptyObject.(
      completedLevels := Some(p.completedLevels),
      lastPlayedAt := p.lastPlayedAt,
      totalCorrectAnswers := Some(p.totalCorrectAnswers),
      sessionsPlayed := Some(p.sessionsPlayed)))
  }

  /**
   * The stored value spread over the initial progress: a field the stored
   * object carries wins, the others come from the initial progress.
   */
  function Merge(stored: Option<Json>): (p: LearningProgress)
    ensures stored.None? || stored.value.Scalar? ==> p == CreateInitialProgress()
    ensures stored.Some? && stored.value.Object? ==>
      var o := stored.value.fields;
      && p.completedLevels == o.completedLevels.GetOr([])
      && p.lastPlayedAt == o.lastPlayedAt
      && p.totalCorrectAnswers == o.totalCorrectAnswers.GetOr(0)
      && p.sessionsPlayed == o.sessionsPlayed.GetOr(0)
  {
    var init := CreateInitialProgress();
    match stored
    case None => init
    case Some(Scalar(_)) => init
    case Some(Object(o)) =>
      LearningProgress(
        o.completedLevels.GetOr(init.completedLevels),
        if o.lastPlayedAt.Some? then o.lastPlayedAt else init.lastPlayedAt,
        o.totalCorrectAnswers.GetOr(init.totalCorrectAnswers),
        o.sessionsPlayed.GetOr(init.sessionsPlayed))
  }

  /** `getProgress` */
  function GetProgress(c: Client, store: Store<Json>): LearningProgress
  {
    Merge(GetItem(c, store, ProgressKey))
  }

  /**
   * `saveProgress`: a later read gives `p` back, and no other key changes.
   * A failing storage is left as it was.
   */
  function SaveProgress(c: Client, store: Store<Json>, p: LearningProgress): (r: Store<Json>)
    ensures c.available ==> GetProgress(c, r) == p
    ensures !c.available ==> r == store
    ensures forall key :: key != ProgressKey ==> GetItem(c, r, key) == GetItem(c, store, key)
  {
    var r := SetItem(c, store, ProgressKey, Serialize(p));
    SetGetRoundTrip(c, store, ProgressKey, Serialize(p));
    assert forall key :: key != ProgressKey ==> GetItem(c, r, key) == GetItem(c, store, key) by {
      forall key | key != ProgressKey
        ensures GetItem(c, r, key) == GetItem(c, store, key)
      {
        OtherKeysUnaffected(c, store, ProgressKey, key, Serialize(p));
      }
    }
    r
  }

  /**
   * `markLevelCompleted`: appends the id and writes, only if the id is not
   * yet listed; the other fields are kept.
   */
  function MarkLevelCompleted(c: Client, store: Store<Json>, levelId: string): (r: Store<Json>)
    ensures levelId in GetProgress(c, store).completedLevels ==> r == store
    ensures c.available && levelId !in GetProgress(c, store).completedLevels ==>
      GetProgress(c, r) == GetProgress(c, store).(completedLevels := GetProgress(c, store).completedLevels + [levelId])
    ensures !c.available ==> r == store
    ensures forall key :: key != ProgressKey ==> GetItem(c, r, key) == GetItem(c, store, key)
  {
    var p := GetProgress(c, store);
    if levelId in p.completedLevels then store
    else SaveProgress(c, store, p.(completedLevels := p.completedLevels + [levelId]))
  }

  /**
   * `incrementCorrectAnswers(count)`: adds `count` to the correct answers,
   * nothing else changes. The default count of 1 is applied by callers.
   */
  function IncrementCorrectAnswers(c: Client, store: Store<Json>, count: int): (r: Store<Json>)
    ensures c.available ==>
      GetProgress(c, r) == GetProgress(c, store).(totalCorrectAnswers := GetProgress(c, store).totalCorrectAnswers + count)
    ensures !c.available ==> r == store
    ensures forall key :: key != ProgressKey ==> GetItem(c, r, key) == GetItem(c, store, key)
  {
    var p := GetProgress(c, store);
    SaveProgress(c, store, p.(totalCorrectAnswers := p.totalCorrectAnswers + count))
  }

  /** `incrementSessions`: adds exactly one to the sessions played, nothing else changes. */
  function IncrementSessions(c: Client, store: Store<Json>): (r: Store<Json>)
    ensures c.available ==>
      GetProgress(c, r) == GetProgress(c, store).(sessionsPlayed := GetProgress(c, store).sessionsPlayed + 1)
    ensures !c.available ==> r == store
    ensures forall key :: key != ProgressKey ==> GetItem(c, r, key) == GetItem(c, store, key)
  {
    var p := GetProgress(c, store);
    SaveProgress(c, store, p.(sessionsPlayed := p.sessionsPlayed + 1))
  }

  /** `updateLastPlayed`, with `now` the current time as an ISO timestamp: sets only the timestamp. */
  function UpdateLastPlayed(c: Client, store: Store<Json>, now: string): (r: Store<Json>)
    ensures c.available ==> GetProgress(c, r) == GetProgress(c, store).(lastPlayedAt := Some(now))
    ensures !c.available ==> r == store
    ensures forall key :: key != ProgressKey ==> GetItem(c, r, key) == GetItem(c, store, key)
  {
    var p := GetProgress(c, store);
    SaveProgress(c, store, p.(lastPlayedAt := Some(now)))
  }

  /** `resetProgress`: removes the record, so the progress reads as the initial one. */
  function ResetProgress(c: Client, store: Store<Json>): (r: Store<Json>)
    ensures GetProgress(c, r) == CreateInitialProgress()
    ensures !c.available ==> r == store
    ensures forall key :: key != ProgressKey ==> GetItem(c, r, key) == GetItem(c, store, key)
  {
    var r := RemoveItem(c, store, ProgressKey);
    RemoveGetsNull(c, store, ProgressKey);
    assert forall key :: key != ProgressKey ==> GetItem(c, r, key) == GetItem(c, store, key) by {
      forall key | key != ProgressKey
        ensures GetItem(c, r, key) == GetItem(c, store, key)
      {
        OtherKeysUnaffected(c, store, ProgressKey, key, Scalar(false));
      }
    }
    r
  }

  /** `isLevelCompleted` */
  function IsLevelCompleted(c: Client, store: Store<Json>, levelId: string): bool
  {
    levelId in GetProgress(c, store).completedLevels
  }

  // ----- properties -----

  /** Nothing stored, or a stored value that is not an object, reads as the initial progress. */
  lemma GetProgressDefaults(c: Client, store: Store<Json>)
    requires GetItem(c, store, ProgressKey).None? || GetItem(c, store, ProgressKey).value.Scalar?
    ensures GetProgress(c, store) == CreateInitialProgress()
  {
  }

  /**
   * When the storage fails, the progress always reads as the initial one: no
   * level is ever completed, whatever was recorded.
   */
  lemma UnavailableReadsInitial(c: Client, store: Store<Json>, levelId: string)
    requires !c.available
    ensures GetProgress(c, store) == CreateInitialProgress()
    ensures !IsLevelCompleted(c, store, levelId)
  {
  }

  /** Marking lists the id afterwards, leaves the other fields alone, and marking again changes nothing. */
  lemma MarkLevelCompletedProperties(c: Client, store: Store<Json>, levelId: string)
    requires c.available
    ensures var before := GetProgress(c, store);
      var after := GetProgress(c, MarkLevelCompleted(c, store, levelId));
      && IsLevelCompleted(c, MarkLevelCompleted(c, store, levelId), levelId)
      && (levelId in before.completedLevels ==> MarkLevelCompleted(c, store, levelId) == store)
      && (levelId !in before.completedLevels ==> after.completedLevels == before.completedLevels + [levelId])
      && after.(completedLevels := before.completedLevels) == before
    ensures MarkLevelCompleted(c, MarkLevelCompleted(c, store, levelId), levelId) == MarkLevelCompleted(c, store, levelId)
  {
    var p := GetProgress(c, store);
    if levelId !in p.completedLevels {
      var p' := p.(completedLevels := p.completedLevels + [levelId]);
      assert levelId == p'.completedLevels[|p.completedLevels|];
    }
  }

  /**
   * Validity is kept: a valid stored progress stays valid under every
   * operation, given a non-negative count.
   */
  lemma OperationsPreserveValid(c: Client, store: Store<Json>, levelId: string, count: int, now: string)
    requires Valid(GetProgress(c, store))
    requires count >= 0
    ensures Valid(GetProgress(c, MarkLevelCompleted(c, store, levelId)))
    ensures Valid(GetProgress(c, IncrementCorrectAnswers(c, store, count)))
    ensures Valid(GetProgress(c, IncrementSessions(c, store)))
    ensures Valid(GetProgress(c, UpdateLastPlayed(c, store, now)))
    ensures Valid(GetProgress(c, ResetProgress(c, store)))
  {
    var p := GetProgress(c, store);
    if c.available {
      MarkLevelCompletedProperties(c, store, levelId);
      if levelId !in p.completedLevels {
        AppendFresh(p.completedLevels, levelId);
      }
    }
  }
}
