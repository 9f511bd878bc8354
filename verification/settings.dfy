/**
 * `SettingsProvider`: the app settings, loaded once from local storage over
 * the defaults and written back after every change once loading is done.
 *
 * React state updates and effects are made explicit. The persist effect
 * runs after a render in which the settings object or the loaded flag
 * changed. Setting the state to the very object it already holds does not
 * re-render, so `isDefaultObject` records whether the state is the shared
 * default object itself; equal copies do not count.
 */
module Settings {
  import opened Basics
  import opened Storage
  import opened Records
  import opened Themes
  import opened Speech

  datatype AppSettings = AppSettings(
    clockTheme: ThemeId,
    soundEnabled: bool,
    language: LanguageOption)

  /** `DEFAULT_SETTINGS` */
  const DefaultSettings: AppSettings := AppSettings(Cuckoo, true, Auto)

  const SettingsKey: string := "app_settings"

  /** `Partial<AppSettings>`: the fields to change. */
  datatype SettingsPatch = SettingsPatch(
    clockTheme: Option<ThemeId>,
    soundEnabled: Option<bool>,
    language: Option<LanguageOption>)

  /** `{ ...prev, ...updates }`: exactly the supplied fields change. */
  function ApplyPatch(s: AppSettings, patch: SettingsPatch): (r: AppSettings)
    ensures r.clockTheme == if patch.clockTheme.Some? then patch.clockTheme.value else s.clockTheme
    ensures r.soundEnabled == if patch.soundEnabled.Some? then patch.soundEnabled.value else s.soundEnabled
    ensures r.language == if patch.language.Some? then patch.language.value else s.language
  {
    AppSettings(
      patch.clockTheme.GetOr(s.clockTheme),
      patch.soundEnabled.GetOr(s.soundEnabled),
      patch.language.GetOr(s.language))
  }

  /** Two patches in a row, the later one winning field by field. */
  function Combine(first: SettingsPatch, second: SettingsPatch): SettingsPatch
  {
    SettingsPatch(
      if second.clockTheme.Some? then second.clockTheme else first.clockTheme,
      if second.soundEnabled.Some? then second.soundEnabled else first.soundEnabled,
      if second.language.Some? then second.language else first.language)
  }

  /** Applying two patches equals applying their combination; the empty patch changes nothing. */
  lemma PatchesCompose(s: AppSettings, first: SettingsPatch, second: SettingsPatch)
    ensures ApplyPatch(ApplyPatch(s, first), second) == ApplyPatch(s, Combine(first, second))
    ensures ApplyPatch(s, SettingsPatch(None, None, None)) == s
  {
  }

  /** The JSON object written for the settings. */
  function Serialize(s: AppSettings): Json
  {
    Object(EmptyObject.(
      clockTheme := Some(s.clockTheme),
      soundEnabled := Some(s.soundEnabled),
      language := Some(s.language)))
  }

  /**
   * The load effect's reading of the stored value: a falsy value (nothing
   * stored, unreadable, `null`, `false`, `0`, `""`) leaves the state alone
   * (`None`); a truthy one is spread over the defaults.
   */
  function MergeStored(stored: Option<Json>): (r: Option<AppSettings>)
    ensures r.None? <==> stored.None? || stored.value == Scalar(false)
    ensures stored.Some? && stored.value == Scalar(true) ==> r == Some(DefaultSettings)
    ensures stored.Some? && stored.value.Object? ==>
      var o := stored.value.fields;
      r == Some(AppSettings(
        o.clockTheme.GetOr(DefaultSettings.clockTheme),
        o.soundEnabled.GetOr(DefaultSettings.soundEnabled),
        o.language.GetOr(DefaultSettings.language)))
  {
    match stored
    case None => None
    case Some(Scalar(truthy)) => if truthy then Some(DefaultSettings) else None
    case Some(Object(o)) =>
      Some(ApplyPatch(DefaultSettings, SettingsPatch(o.clockTheme, o.soundEnabled, o.language)))
  }

  /** What a fresh load would show for this store. */
  function StoredSettings(c: Client, store: Store<Json>): AppSettings
  {
    MergeStored(GetItem(c, store, SettingsKey)).GetOr(DefaultSettings)
  }

  /** Saved settings read back as themselves when the storage works. */
  lemma SerializeRoundTrip(c: Client, store: Store<Json>, s: AppSettings)
    ensures c.available ==> StoredSettings(c, SetItem(c, store, SettingsKey, Serialize(s))) == s
  {
    SetGetRoundTrip(c, store, SettingsKey, Serialize(s));
  }

  datatype Provider = Provider(
    client: Client,
    store: Store<Json>,
    settings: AppSettings,
    isDefaultObject: bool,   // the state is the `DEFAULT_SETTINGS` object itself
    isLoaded: bool)

  /** The first render: the default object, not loaded, nothing read or written. */
  function Mount(client: Client, store: Store<Json>): (p: Provider)
    ensures p.settings == DefaultSettings && p.isDefaultObject && !p.isLoaded
    ensures p.store == store
  {
    Provider(client, store, DefaultSettings, true, false)
  }

  /** The persist effect after a render in which the settings or the loaded flag changed. */
  function Persist(p: Provider): (p': Provider)
    ensures !p.isLoaded ==> p' == p
    ensures p.isLoaded && p.client.available ==> StoredSettings(p'.client, p'.store) == p.settings
    ensures p'.settings == p.settings && p'.isLoaded == p.isLoaded && p'.client == p.client
  {
    if p.isLoaded then
      SerializeRoundTrip(p.client, p.store, p.settings);
      p.(store := SetItem(p.client, p.store, SettingsKey, Serialize(p.settings)))
    else p
  }

  /**
   * The load effect: a truthy stored value is merged over the defaults,
   * the loaded flag is set, and the persist effect then writes the settings.
   */
  function Load(p: Provider): (p': Provider)
    requires !p.isLoaded
    ensures p'.isLoaded
    ensures p'.settings == MergeStored(GetItem(p.client, p.store, SettingsKey)).GetOr(p.settings)
    ensures p.client.available ==> StoredSettings(p'.client, p'.store) == p'.settings
  {
    var merged := MergeStored(GetItem(p.client, p.store, SettingsKey));
    Persist(p.(settings := merged.GetOr(p.settings),
               isDefaultObject := merged.None? && p.isDefaultObject,
               isLoaded := true))
  }

  /** `updateSettings(updates)`: a new settings object, then the persist effect. */
  function UpdateSettings(p: Provider, patch: SettingsPatch): (p': Provider)
    ensures p'.settings == ApplyPatch(p.settings, patch)
    ensures !p'.isDefaultObject && p'.isLoaded == p.isLoaded
    ensures !p.isLoaded ==> p'.store == p.store
  {
    Persist(p.(settings := ApplyPatch(p.settings, patch), isDefaultObject := false))
  }

  /**
   * `resetSettings`: the state becomes the default object and the stored
   * key is removed. If the state was not already that object, the re-render
   * runs the persist effect, which writes the defaults again.
   */
  function ResetSettings(p: Provider): (p': Provider)
    ensures p'.settings == DefaultSettings && p'.isDefaultObject && p'.isLoaded == p.isLoaded
    ensures StoredSettings(p'.client, p'.store) == DefaultSettings
    ensures p.isDefaultObject || !p.isLoaded ==> p'.store == RemoveItem(p.client, p.store, SettingsKey)
  {
    var removed := p.(settings := DefaultSettings, isDefaultObject := true,
                      store := RemoveItem(p.client, p.store, SettingsKey));
    RemoveGetsNull(p.client, p.store, SettingsKey);
    if p.isDefaultObject then removed else Persist(removed)
  }

  /**
   * Once loaded, with working storage, the store holds the current settings:
   * a fresh load from it would show them.
   */
  predicate Persisted(p: Provider)
  {
    p.isLoaded && p.client.available ==> StoredSettings(p.client, p.store) == p.settings
  }

  datatype Op = LoadOp | UpdateOp(patch: SettingsPatch) | ResetOp

  function Apply(p: Provider, op: Op): Provider
  {
    match op
    case LoadOp => if p.isLoaded then p else Load(p)
    case UpdateOp(patch) => UpdateSettings(p, patch)
    case ResetOp => ResetSettings(p)
  }

  lemma ApplyKeepsPersisted(p: Provider, op: Op)
    requires Persisted(p)
    ensures Persisted(Apply(p, op))
    ensures Apply(p, op).client == p.client
  {
  }

  function ApplyAll(p: Provider, ops: seq<Op>): Provider
    decreases |ops|
  {
    if |ops| == 0 then p else ApplyAll(Apply(p, ops[0]), ops[1..])
  }

  /**
   * From the first render on, the store holds the current settings at every
   * point after loading, and nothing but the settings key's removal happens
   * to the store before loading.
   */
  lemma {:induction false} SettingsArePersisted(p: Provider, ops: seq<Op>)
    requires Persisted(p)
    ensures Persisted(ApplyAll(p, ops))
    ensures ApplyAll(p, ops).client == p.client
    decreases |ops|
  {
    if |ops| > 0 {
      ApplyKeepsPersisted(p, ops[0]);
      SettingsArePersisted(Apply(p, ops[0]), ops[1..]);
    }
  }

  /** Nothing is written before loading: updates leave the store alone, a reset only removes the key. */
  lemma NoWritesBeforeLoad(p: Provider, op: Op)
    requires !p.isLoaded && !op.LoadOp?
    ensures !Apply(p, op).isLoaded
    ensures Apply(p, op).store == p.store || Apply(p, op).store == RemoveItem(p.client, p.store, SettingsKey)
  {
  }

  /** After a reset, a reload of the app shows the defaults. */
  lemma ResetThenReload(p: Provider)
    ensures var q := ResetSettings(p);
      Load(Mount(q.client, q.store)).settings == DefaultSettings
  {
  }

  /** The settings store is separate from other keys, such as the progress record. */
  lemma OtherKeysKept(p: Provider, op: Op, key: string)
    requires key != SettingsKey
    ensures GetItem(p.client, Apply(p, op).store, key) == GetItem(p.client, p.store, key)
  {
    OtherKeysUnaffected(p.client, p.store, SettingsKey, key, Serialize(p.settings));
    match op {
      case LoadOp =>
        if !p.isLoaded {
          var merged := MergeStored(GetItem(p.client, p.store, SettingsKey));
          OtherKeysUnaffected(p.client, p.store, SettingsKey, key, Serialize(merged.GetOr(p.settings)));
        }
      case UpdateOp(patch) =>
        OtherKeysUnaffected(p.client, p.store, SettingsKey, key, Serialize(ApplyPatch(p.settings, patch)));
      case ResetOp =>
        var removed := RemoveItem(p.client, p.store, SettingsKey);
        OtherKeysUnaffected(p.client, removed, SettingsKey, key, Serialize(DefaultSettings));
    }
  }
}
