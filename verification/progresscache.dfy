/**
 * `ProgressProvider`: the app-wide learning progress, cached in component
 * state over the local progress repository.
 *
 * Every mutating operation calls the repository and then reloads the cache
 * from it. The store is part of the provider's state so that the cache can be
 * compared with what the repository would read.
 */
module ProgressCache {
  import opened Basics
  import opened Storage
  import opened Records
  import opened Progress
  import Repository

  datatype Provider = Provider(
    client: Client,
    store: Store<Json>,
    progress: LearningProgress,   // the cached progress
    isLoading: bool)

  /** The cache shows what the repository reads from the store. */
  predicate Coherent(p: Provider)
  {
    p.progress == Repository.GetProgress(p.client, p.store)
  }

  /** The provider as first rendered: the initial progress, still loading. */
  function Mount(client: Client, store: Store<Json>): (p: Provider)
    ensures p.progress == CreateInitialProgress() && p.isLoading
    ensures p.client == client && p.store == store
  {
    Provider(client, store, CreateInitialProgress(), true)
  }

  /** The mount effect: load the progress and stop loading. */
  function Load(p: Provider): (p': Provider)
    ensures Coherent(p') && !p'.isLoading
    ensures p'.client == p.client && p'.store == p.store
  {
    p.(progress := Repository.GetProgress(p.client, p.store), isLoading := false)
  }

  /** `reloadProgress` after a repository call that produced `store`. */
  function Reload(p: Provider, store: Store<Json>): (p': Provider)
    ensures Coherent(p') && p'.store == store
    ensures p'.client == p.client && p'.isLoading == p.isLoading
  {
    p.(store := store, progress := Repository.GetProgress(p.client, store))
  }

  /**
   * `markLevelCompleted(levelId)`: the repository's mark, then its
   * last-played update with the current time `now`, then a reload. With
   * working storage the cache then lists the level and the timestamp.
   */
  function MarkLevelCompleted(p: Provider, levelId: string, now: string): (p': Provider)
    ensures Coherent(p')
    ensures p'.store == Repository.UpdateLastPlayed(p.client, Repository.MarkLevelCompleted(p.client, p.store, levelId), now)
    ensures p.client.available ==> levelId in p'.progress.completedLevels && p'.progress.lastPlayedAt == Some(now)
    ensures p.client.available && Coherent(p) ==>
      && p'.progress.totalCorrectAnswers == p.progress.totalCorrectAnswers
      && p'.progress.sessionsPlayed == p.progress.sessionsPlayed
      && p'.progress.completedLevels ==
           if levelId in p.progress.completedLevels then p.progress.completedLevels
           else p.progress.completedLevels + [levelId]
  {
    var marked := Repository.MarkLevelCompleted(p.client, p.store, levelId);
    Reload(p, Repository.UpdateLastPlayed(p.client, marked, now))
  }

  /** `incrementCorrectAnswers(count = 1)` */
  function IncrementCorrectAnswers(p: Provider, count: Option<int>): (p': Provider)
    ensures Coherent(p')
    ensures p.client.available && Coherent(p) ==>
      p'.progress == p.progress.(totalCorrectAnswers := p.progress.totalCorrectAnswers + count.GetOr(1))
  {
    Reload(p, Repository.IncrementCorrectAnswers(p.client, p.store, count.GetOr(1)))
  }

  /** `startSession`: one more session and the current time as last played; nothing else changes. */
  function StartSession(p: Provider, now: string): (p': Provider)
    ensures Coherent(p')
    ensures p.client.available && Coherent(p) ==>
      p'.progress == p.progress.(sessionsPlayed := p.progress.sessionsPlayed + 1, lastPlayedAt := Some(now))
  {
    Reload(p, Repository.UpdateLastPlayed(p.client, Repository.IncrementSessions(p.client, p.store), now))
  }

  /** `resetProgress`: with the local repository the cache is the initial progress afterwards. */
  function ResetProgress(p: Provider): (p': Provider)
    ensures Coherent(p')
    ensures p'.progress == CreateInitialProgress()
  {
    Reload(p, Repository.ResetProgress(p.client, p.store))
  }

  /** `isLevelCompleted`: membership in the cached list, not a storage read. */
  function IsLevelCompleted(p: Provider, levelId: string): bool
  {
    levelId in p.progress.completedLevels
  }

  /** A coherent cache answers as the repository would. */
  lemma IsLevelCompletedAgrees(p: Provider, levelId: string)
    requires Coherent(p)
    ensures IsLevelCompleted(p, levelId) == Repository.IsLevelCompleted(p.client, p.store, levelId)
  {
  }

  /** Writes by others to keys other than the progress key keep the cache coherent. */
  lemma ForeignWritesKeepCoherence(p: Provider, key: string, value: Json)
    requires Coherent(p) && key != Repository.ProgressKey
    ensures Coherent(p.(store := SetItem(p.client, p.store, key, value)))
    ensures Coherent(p.(store := RemoveItem(p.client, p.store, key)))
  {
    OtherKeysUnaffected(p.client, p.store, key, Repository.ProgressKey, value);
  }

  /** Operations on the provider. */
  datatype Op =
    | LoadOp
    | MarkOp(levelId: string, now: string)
    | IncrementOp(count: Option<int>)
    | SessionOp(now: string)
    | ResetOp

  function Apply(p: Provider, op: Op): Provider
  {
    match op
    case LoadOp => Load(p)
    case MarkOp(id, now) => MarkLevelCompleted(p, id, now)
    case IncrementOp(n) => IncrementCorrectAnswers(p, n)
    case SessionOp(now) => StartSession(p, now)
    case ResetOp => ResetProgress(p)
  }

  function ApplyAll(p: Provider, ops: seq<Op>): Provider
    decreases |ops|
  {
    if |ops| == 0 then p else ApplyAll(Apply(p, ops[0]), ops[1..])
  }

  /**
   * From mounting on, the cache is the initial progress until the first
   * operation, and coherent with the store after every non-empty sequence of
   * operations; it stays valid while the counts added are non-negative.
   */
  lemma {:induction false} CacheTracksStore(p: Provider, ops: seq<Op>)
    requires Coherent(p) || |ops| > 0
    requires Valid(Repository.GetProgress(p.client, p.store))
    requires forall i :: 0 <= i < |ops| ==> (ops[i].IncrementOp? ==> ops[i].count.GetOr(1) >= 0)
    ensures Coherent(ApplyAll(p, ops))
    ensures Valid(ApplyAll(p, ops).progress)
    ensures ApplyAll(p, ops).client == p.client
    decreases |ops|
  {
    if |ops| > 0 {
      var q := Apply(p, ops[0]);
      match ops[0] {
        case LoadOp =>
        case MarkOp(id, now) =>
          var marked := Repository.MarkLevelCompleted(p.client, p.store, id);
          Repository.OperationsPreserveValid(p.client, p.store, id, 0, now);
          Repository.OperationsPreserveValid(p.client, marked, id, 0, now);
        case IncrementOp(n) =>
          Repository.OperationsPreserveValid(p.client, p.store, "", n.GetOr(1), "");
        case SessionOp(now) =>
          var counted := Repository.IncrementSessions(p.client, p.store);
          Repository.OperationsPreserveValid(p.client, p.store, "", 0, now);
          Repository.OperationsPreserveValid(p.client, counted, "", 0, now);
        case ResetOp =>
      }
      CacheTracksStore(q, ops[1..]);
    }
  }

  /** With failing storage the cache only ever shows the initial progress once loaded. */
  lemma UnavailableShowsInitial(p: Provider, op: Op)
    requires !p.client.available
    ensures Apply(p, op).progress == CreateInitialProgress()
    ensures Apply(p, op).store == p.store
  {
    Repository.UnavailableReadsInitial(p.client, p.store, "");
  }
}
