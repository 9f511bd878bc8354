/**
 * The JSON values the app keeps in local storage, abstracted to what the
 * readers look at.
 *
 * Both stored records, the learning progress and the app settings, are JSON
 * objects. A reader spreads the parsed object over its defaults, so what
 * matters is which of the known fields the object carries. Any other JSON
 * value (a number, a string, `null`, ...) contributes no known fields when
 * spread; only whether it is truthy is observable.
 */
module Records {
  import opened Basics
  import Themes
  import Speech

  /** A stored JSON object: each known field present or absent. */
  datatype StoredObject = StoredObject(
    completedLevels: Option<seq<string>>,
    lastPlayedAt: Option<string>,
    totalCorrectAnswers: Option<int>,
    sessionsPlayed: Option<int>,
    clockTheme: Option<Themes.ThemeId>,
    soundEnabled: Option<bool>,
    language: Option<Speech.LanguageOption>)

  /** An object without any of the known fields. */
  const EmptyObject := StoredObject(None, None, None, None, None, None, None)

  datatype Json =
    | Object(fields: StoredObject)
    | Scalar(truthy: bool)   // a JSON value that is not an object; `null` is the falsy one
}
