# uhrzeit-app core in Dafny

The model covers the logic under "Uhrzeit-Abenteuer", the children's clock-learning app of the `uhrzeit-app` repository. It has these parts:

- **The interactive clock.** Hours and minutes come from drag angles: each angle is rounded to a 30° hour sector or a 6° minute sector, with wrap-around. The clock also computes hand rotations and picks the spoken language. It phrases the time in German or English.
- **The drag state machine.** It edits the clock's hands by pointer events.
- **Clock themes.** The theme registry, the Roman-numeral table and the index tables of the colourful learning face.
- **The "read the full hour" quiz.** Question generation, answer handling with feedback, streaks and the completion threshold.
- **Persistence.** Learning progress and app settings are kept in the browser's local storage. This goes through a prefixed key-value client, the progress repository, and the progress and settings providers, which cache that state for the whole app.

Browser APIs, time and randomness are inputs. These include the reported UI language, the current time, `Math.random()`, the drag angle and whether storage or speech work. React state and effects, window listeners and timers become explicit events in small state machines. JSON is abstracted: a stored value reads back as itself.

Modules follow the source files:

| module | file | models |
|---|---|---|
| `Basics` | basics.dfy | `Option`, JavaScript `Math.round` and `%`, sequence helpers |
| `Decimal` | decimal.dfy | integer `toString` and `padStart` |
| `ClockMath` | clockmath.dfy | angle quantisers, hand rotations, dial numerals |
| `Speech` | speech.dfy | language choice and the spoken sentence |
| `Drag` | drag.dfy | drag-editing of the hands |
| `Themes` | themes.dfy | `CLOCK_THEMES`, `ROMAN_NUMERALS` |
| `Decorations` | decorations.dfy | the learning face tables, the decoration dispatch |
| `ClockFace` | clockface.dfy | layers, ticks, numerals and handles of the interactive clock; the analog clock |
| `Quiz` | quiz.dfy | the `GameClock` quiz |
| `Storage` | storage.dfy | `LocalStorageClient` |
| `Records` | records.dfy | the stored JSON objects |
| `Progress` | progress.dfy | `LearningProgress` |
| `Repository` | repository.dfy | `LocalProgressRepository` |
| `ProgressCache` | progresscache.dfy | `ProgressProvider` |
| `Settings` | settings.dfy | `SettingsProvider` |
| `QuizSession` | session.dfy | the quiz wired to the progress provider |

## Model

| member | source | states |
|---|---|---|
| Basics.Round | src/components/InteractiveClock/InteractiveClock.tsx:18-24 | `Math.round`: the result is the unique integer within half a unit below and strictly less than half a unit above x, so halves round up |
| Basics.RoundUnique | src/components/InteractiveClock/InteractiveClock.tsx:18-24 | any integer k with k − ½ ≤ x < k + ½ is the rounding of x |
| Basics.JsRem | src/components/InteractiveClock/InteractiveClock.tsx:18-24 | JavaScript's `%` for a positive divisor: remainder strictly inside (−b, b), with the dividend's sign and its magnitude reduced modulo b |
| Basics.ElementsCardinality | src/routes/GameClock.tsx:33-38 | a sequence has at most as many distinct elements as entries, with equality exactly when no element repeats |
| Basics.PermutationDistinct | src/routes/GameClock.tsx:41 | a permutation of a duplicate-free sequence is duplicate-free |
| Decimal.NatToString | src/routes/GameClock.tsx:49 | a natural number's decimal text: at least one digit, no leading zero, reads back as the number, one digit exactly below 10 |
| Decimal.IntToString | src/routes/GameClock.tsx:49 | an integer's text: non-empty, a leading minus sign exactly for negative values, then digits without leading zeros that read back as the magnitude |
| Decimal.PadStart | src/routes/GameClock.tsx:49 | `padStart`: length max(len, width), ends with the original text, padded on the left with the pad character only |
| ClockMath.AngleToHour | src/components/InteractiveClock/InteractiveClock.tsx:18-20 | the hour sector of an angle, in 0..11 for non-negative angles |
| ClockMath.AngleToMinute | src/components/InteractiveClock/InteractiveClock.tsx:22-24 | the minute sector of an angle, in 0..59 for non-negative angles |
| ClockMath.AngleToHourSector | src/components/InteractiveClock/InteractiveClock.tsx:18-20 | for an angle in [0, 360), the result is h exactly when the angle lies within 15° below or strictly less than 15° above h·30, wrapping at 360 |
| ClockMath.AngleToMinuteSector | src/components/InteractiveClock/InteractiveClock.tsx:22-24 | for an angle in [0, 360), the result is m exactly when the angle lies within 3° below or strictly less than 3° above m·6, wrapping at 360 |
| ClockMath.QuantiserExamples | src/components/InteractiveClock/InteractiveClock.tsx:18-24 | 14° → hour 0, 15° and 16° → hour 1, 345° and 359° → hour 0; 3° → minute 1, 357° and 359° → minute 0 |
| ClockMath.HourDegrees | src/components/InteractiveClock/InteractiveClock.tsx:135 | the hour hand's rotation lies in [0, 360) for every non-negative hour and minutes 0..59 |
| ClockMath.MinuteDegrees | src/components/InteractiveClock/InteractiveClock.tsx:136 | the minute hand's rotation lies in [0, 354] for minutes 0..59 |
| ClockMath.HourDegreesSplit | src/components/InteractiveClock/InteractiveClock.tsx:135 | the rotation is the hour's 30° step plus half a degree per minute, and hours 12 apart give the same rotation |
| ClockMath.HandExamples | src/components/InteractiveClock/InteractiveClock.tsx:135-136 | 3:30 and 15:30 both put the hour hand at 105°; minute 45 puts the minute hand at 270° |
| ClockMath.HourHandSelectsNearestHour | src/components/InteractiveClock/InteractiveClock.tsx:18-20 | quantising the hour hand's own rotation gives back the hour when under 30 minutes have passed and the next hour otherwise |
| ClockMath.MinuteHandSelectsItsMinute | src/components/InteractiveClock/InteractiveClock.tsx:22-24 | quantising the minute hand's rotation gives back the minute |
| ClockMath.DialNumeralPositions | src/components/AnalogClock.tsx:53 | the numeral at dial position i is 12 for i = 0 and i otherwise, and sits where that hour's hand points |
| Speech.ActiveLanguageResolution | src/components/InteractiveClock/InteractiveClock.tsx:30-41 | 'de' and 'en' are kept; 'auto' gives German exactly when the reported language is absent, empty or starts with "de" |
| Speech.Hour12 | src/components/InteractiveClock/InteractiveClock.tsx:52 | the 12-hour reading (the hour modulo 12, with 0 read as 12) is in 1..12 and congruent to the hour modulo 12 |
| Speech.ComposeNamesTheTime | src/components/InteractiveClock/InteractiveClock.tsx:52-74 | for every hour 0..23 and minute 0..59, the sentence in either language names that time's dial position and minute, with "halb n" and "viertel vor n" counting towards the coming hour |
| Speech.EnglishPeriodRecoversHour | src/components/InteractiveClock/InteractiveClock.tsx:67-74 | English uses a 12-hour value in 1..12 and says PM exactly from 12:00 on; the two together give back the 24-hour hour |
| Speech.GermanRules | src/components/InteractiveClock/InteractiveClock.tsx:52-66 | the German cases: the 24-hour value on the full hour, "viertel nach h12" at 15, "halb (h12 mod 12 + 1)" at 30, "viertel vor (h12 mod 12 + 1)" at 45, the 24-hour hour and the minute otherwise |
| Speech.GermanExamples | src/components/InteractiveClock/InteractiveClock.tsx:55-66 | exact German texts, such as "Es ist halb 7" for 6:30 and "Es ist halb 1" for 12:30 |
| Speech.EnglishExamples | src/components/InteractiveClock/InteractiveClock.tsx:67-74 | exact English texts, such as "It's 12 o'clock AM" for 0:00 and "It's 1 5 PM" for 13:05 |
| Speech.SpeakTime | src/components/InteractiveClock/InteractiveClock.tsx:44-80 | no utterance without a speech platform; otherwise the sentence in the active language, tagged de-DE exactly for German and en-US exactly for English, at rate 0.9 |
| Drag.PointerDownStep | src/components/InteractiveClock/InteractiveClock.tsx:153-159 | pointer-down starts dragging that hand exactly when time editing is allowed and both callbacks exist; otherwise nothing changes; it never calls back |
| Drag.PointerMoveStep | src/components/InteractiveClock/InteractiveClock.tsx:161-174 | a move calls back at most once, and only while a hand is dragged, the clock is mounted and both callbacks exist; the call is for the dragged hand |
| Drag.UpSilencesMoves | src/components/InteractiveClock/InteractiveClock.tsx:176-200 | after pointer-up a move calls nothing |
| Drag.MoveReportsQuantisedValue | src/components/InteractiveClock/InteractiveClock.tsx:169-173 | a move while dragging reports the hand's quantised value for that angle |
| Drag.NoDragNoCalls | src/components/InteractiveClock/InteractiveClock.tsx:153-200 | starting idle, no run of events without a pointer-down calls anything, and the clock stays idle |
| Drag.RefusedDownsNoCalls | src/components/InteractiveClock/InteractiveClock.tsx:153-159 | starting idle without drag permission and with unchanged props, no run of events calls anything |
| Drag.DraggedHandOnly | src/components/InteractiveClock/InteractiveClock.tsx:161-174 | while one hand is dragged, moves and re-renders only ever call that hand's callback, and the drag continues |
| Drag.CallsInRange | src/components/InteractiveClock/InteractiveClock.tsx:161-174 | for moves on the dial, every reported hour is in 0..11 and every reported minute in 0..59 |
| Themes.ThemeFor | src/components/InteractiveClock/ClockThemes.ts:33-36 | every theme id has an entry in the registry |
| Themes.RegistryDomain | src/components/InteractiveClock/ClockThemes.ts:33-36 | the registry is defined on exactly tower, cuckoo, watch and learning, and the names are distinct |
| Themes.ThemeTags | src/components/InteractiveClock/ClockThemes.ts:36-126 | each theme's decoration tag is its own id, and only the tower uses Roman numerals |
| Themes.RomanTableDomain | src/components/InteractiveClock/ClockThemes.ts:128-131 | the Roman table is defined on exactly 1..12 |
| Themes.RomanTableIsStandard | src/components/InteractiveClock/ClockThemes.ts:128-131 | each entry is the greedy subtractive Roman numeral of its key, using IV and IX |
| Themes.RomanTableReadsBack | src/components/InteractiveClock/ClockThemes.ts:128-131 | each entry, read as a Roman numeral, gives back its key |
| Decorations.LearningClock | src/components/InteractiveClock/ClockDecorations.tsx:192-325 | the learning face has 12 minute-ring segments, hour segments, hour numerals and 24-hour numerals, and 60 minute boxes and labels |
| Decorations.LearningColorsShape | src/components/InteractiveClock/ClockDecorations.tsx:125-138 | 12 swatches, each with a non-empty light and a different non-empty dark colour |
| Decorations.MinuteLabelColour | src/components/InteractiveClock/ClockDecorations.tsx:205-233 | minute label i shows i in the dark colour of segment floor(i/5), a valid index whose angles contain the label's position; box i is turned by 6i° |
| Decorations.SegmentsTile | src/components/InteractiveClock/ClockDecorations.tsx:255-274 | the segments start at 0°, end at 360°, meet edge to edge and are 30° wide each |
| Decorations.SegmentCover | src/components/InteractiveClock/ClockDecorations.tsx:255-257 | every angle in [0, 360) lies in exactly one segment, the one floor(angle/30) names |
| Decorations.HourSegmentSplit | src/components/InteractiveClock/ClockDecorations.tsx:255-274 | each hour segment splits at radius 66.5, strictly between 38 and 85, into a light outer and a dark inner part; the minute ring above shares its angles and light colour |
| Decorations.NumeralTables | src/components/InteractiveClock/ClockDecorations.tsx:277-325 | hour numeral i is 12 for i = 0 and i otherwise; 24-hour numeral i is 0 for i = 0 and i + 12 otherwise, at the same dial position, in the dark colour of segment i |
| Decorations.ClockDecorations | src/components/InteractiveClock/ClockDecorations.tsx:359-371 | the dispatch draws something exactly for the four tags; "learning" gives the learning face and "watch" shows the given day of the month |
| Decorations.ThemesHaveDecorations | src/components/InteractiveClock/ClockDecorations.tsx:359-371 | every registered theme selects a decoration set, and only the learning theme selects the learning face |
| ClockFace.Layers | src/components/InteractiveClock/InteractiveClock.tsx:287-401 | every theme draws its decoration, both hands and the centre cap |
| ClockFace.StockLayersFollowDecoration | src/components/InteractiveClock/InteractiveClock.tsx:287-309 | the stock ring, face, ticks and numerals are drawn exactly when the theme's decoration is not the learning face |
| ClockFace.MinuteTick | src/components/InteractiveClock/InteractiveClock.tsx:203-207 | tick i is an hour mark exactly when i is a multiple of 5; hour marks run from radius 78 and the others from 83, all to 88 |
| ClockFace.HourMarksUnderNumerals | src/components/InteractiveClock/InteractiveClock.tsx:203-207 | for the 60 ticks, tick i is an hour mark exactly when its angle is the angle at which the hour hand points at one of the twelve dial numerals |
| ClockFace.NumeralTextByTheme | src/components/InteractiveClock/InteractiveClock.tsx:224-252 | the tower face shows the standard Roman numeral of each dial hour; every other theme shows its decimal text |
| ClockFace.HandleFill | src/components/InteractiveClock/InteractiveClock.tsx:342-396 | a handle is drawn exactly when dragging is possible; it has the handle colour while its hand is dragged and the hand colour otherwise |
| ClockFace.PressHighlights | src/components/InteractiveClock/InteractiveClock.tsx:342-396 | when dragging is allowed, pressing a hand turns its handle to that hand's highlight colour |
| ClockFace.OnlyPressedHandHighlighted | src/components/InteractiveClock/InteractiveClock.tsx:342-396 | a hand not dragged at the start and never pressed stays undragged over any run of drag events, so a drawn handle keeps the plain hand colour |
| ClockFace.MajorMarkers | src/components/AnalogClock.tsx:34-38 | exactly the markers at 12, 3, 6 and 9 o'clock are major |
| ClockFace.AnalogMarker | src/components/AnalogClock.tsx:36-38 | marker i is major exactly when i mod 3 = 0; major markers are 15 long and others 8, ending on radius 85 |
| ClockFace.AnalogHands | src/components/AnalogClock.tsx:24-31 | an omitted minute counts as 0; for a non-negative hour the hour hand is at 30° per hour of the 12-hour dial plus ½° per minute, inside [0, 360) for minutes 0..59; the minute hand is at 6° per minute |
| ClockFace.AnalogFullHour | src/components/AnalogClock.tsx:24-53 | on the full hour the hour hand points straight at the hour's numeral |
| Quiz.RandomHour | src/routes/GameClock.tsx:23-25 | a random hour is in 1..12, and each twelfth of the random range gives one hour |
| Quiz.PickMessage | src/routes/GameClock.tsx:101-108 | the praise is one of the five success messages |
| Quiz.GenerateAnswerOptions | src/routes/GameClock.tsx:32-42 | the options are pairwise distinct hours in 1..12, include the correct hour and number max(count, 1); the loop can only end for count ≤ 12 |
| Quiz.MissingHourExists | src/routes/GameClock.tsx:35-38 | while fewer than 12 distinct hours are collected, a random draw can still add a new one |
| Quiz.Shuffle | src/routes/GameClock.tsx:41 | shuffling gives a permutation: the same elements with the same multiplicities |
| Quiz.FormatTimeShowsHour | src/routes/GameClock.tsx:48-50 | every hour below 100 is shown as two digits reading back as the hour, zero-padded, then ":00" |
| Quiz.FormatTimeExamples | src/routes/GameClock.tsx:48-50 | 9 → "09:00" and 12 → "12:00" |
| Quiz.HandleAnswer | src/routes/GameClock.tsx:87-133 | an answer while feedback shows changes nothing. A correct one adds 1 to the count and streak, shows praise and reports exactly one increment. It marks the level exactly when the new count reaches 5 and the level was not already completed. A wrong one resets the streak only and reports nothing |
| Quiz.NewQuestion | src/routes/GameClock.tsx:77-82 | a new question replaces hour and options and clears the feedback; counters and completion stay |
| Quiz.PlayAgain | src/routes/GameClock.tsx:148-153 | play-again gives the fresh-screen state: count and streak 0, not complete, no feedback, new question |
| Quiz.NewGameInvariant | src/routes/GameClock.tsx:64-69 | the first screen (`NewGame`: the `useState` initial values, with no feedback, count and streak 0, not complete) for a generated question satisfies the game invariant |
| Quiz.NextPreservesInvariant | src/routes/GameClock.tsx:77-153 | every event keeps the invariant: a valid four-option question, 0 ≤ streak ≤ correct count, completion only at 5 or more |
| Quiz.CountOfAppend | src/routes/GameClock.tsx:98 | counting a call in two concatenated call lists adds the counts |
| Quiz.RunCountsMatchIncrements | src/routes/GameClock.tsx:87-133 | over any run without play-again, the invariant holds and the correct count grows by exactly the number of increments reported |
| Storage.FullKey | src/services/storage/LocalStorageClient.ts:17-26 | the full key starts with the prefix, and the rest is the key |
| Storage.GetItem | src/services/storage/LocalStorageClient.ts:31-45 | a value exactly when the storage works and the prefixed key holds parsable text; that value is the stored one |
| Storage.SetItem | src/services/storage/LocalStorageClient.ts:50-58 | with working storage the prefixed key holds the value; no other key changes; a failing storage stays as it was |
| Storage.RemoveItem | src/services/storage/LocalStorageClient.ts:63-70 | with working storage the prefixed key is gone; no other key changes; a failing storage stays as it was |
| Storage.SetGetRoundTrip | src/services/storage/LocalStorageClient.ts:31-58 | reading after writing gives the written value, or null when the storage fails |
| Storage.OtherKeysUnaffected | src/services/storage/LocalStorageClient.ts:24-70 | writing or removing one key never changes what another key reads |
| Storage.RemoveGetsNull | src/services/storage/LocalStorageClient.ts:31-70 | after a removal the key reads as null |
| Storage.Clear | src/services/storage/LocalStorageClient.ts:75-91 | clear keeps exactly the entries whose key is empty or lacks the prefix, unchanged; a failing storage stays as it was |
| Storage.ClearedKeysReadNull | src/services/storage/LocalStorageClient.ts:75-87 | after a clear every non-empty key of the client reads as null |
| Progress.CreateInitialProgress | src/types/progress.ts:18-24 | the initial progress has no completed levels, zero counters and no last-played time, and is valid |
| Repository.Merge | src/services/progress/LocalProgressRepository.ts:30-42 | nothing stored, or a non-object, gives the initial progress; otherwise each field comes from the stored object when present and from the initial progress otherwise |
| Repository.GetProgressDefaults | src/services/progress/LocalProgressRepository.ts:30-35 | with nothing readable stored, the progress is the initial one |
| Repository.SaveProgress | src/services/progress/LocalProgressRepository.ts:47-49 | a later read gives the saved progress back; other keys keep their values; a failing storage stays as it was |
| Repository.MarkLevelCompleted | src/services/progress/LocalProgressRepository.ts:55-62 | an id already listed leaves the store untouched; otherwise the id is appended and only that field changes |
| Repository.IncrementCorrectAnswers | src/services/progress/LocalProgressRepository.ts:67-71 | adds the count to the correct answers and changes no other field |
| Repository.IncrementSessions | src/services/progress/LocalProgressRepository.ts:76-80 | adds exactly 1 to the sessions played and changes no other field |
| Repository.UpdateLastPlayed | src/services/progress/LocalProgressRepository.ts:85-89 | sets only the last-played time, to the given timestamp |
| Repository.ResetProgress | src/services/progress/LocalProgressRepository.ts:94-96 | after a reset the progress reads as the initial one; other keys keep their values |
| Repository.UnavailableReadsInitial | src/services/progress/LocalProgressRepository.ts:30-42 | with failing storage the progress always reads as initial, and no level is completed |
| Repository.MarkLevelCompletedProperties | src/services/progress/LocalProgressRepository.ts:55-62 | after marking, the level counts as completed, the other fields are unchanged, and marking twice equals marking once |
| Repository.OperationsPreserveValid | src/services/progress/LocalProgressRepository.ts:55-96 | a valid stored progress stays valid under every operation (non-negative counters, no duplicate level ids), given a non-negative count |
| ProgressCache.Mount | src/context/ProgressContext.tsx:47-48 | before loading the cache is the initial progress and is loading |
| ProgressCache.Load | src/context/ProgressContext.tsx:51-55 | after loading the cache equals the repository's progress and is no longer loading |
| ProgressCache.Reload | src/context/ProgressContext.tsx:58-60 | a reload makes the cache equal to the repository's progress |
| ProgressCache.MarkLevelCompleted | src/context/ProgressContext.tsx:63-67 | the repository mark, then the last-played update, then a reload; with working storage the level is listed, the time is recorded and the counters are unchanged |
| ProgressCache.IncrementCorrectAnswers | src/context/ProgressContext.tsx:70-73 | adds the count, by default 1, and keeps the cache coherent |
| ProgressCache.StartSession | src/context/ProgressContext.tsx:76-80 | one more session and the new last-played time; nothing else changes |
| ProgressCache.ResetProgress | src/context/ProgressContext.tsx:83-86 | the cache becomes the initial progress |
| ProgressCache.IsLevelCompletedAgrees | src/context/ProgressContext.tsx:89-91 | with a coherent cache, the cached membership answer agrees with the repository's |
| ProgressCache.ForeignWritesKeepCoherence | src/context/ProgressContext.tsx:58-60 | writes to other keys, such as the settings, keep the cache coherent |
| ProgressCache.CacheTracksStore | src/context/ProgressContext.tsx:51-91 | after any non-empty sequence of provider operations the cache equals the repository's progress and is valid |
| ProgressCache.UnavailableShowsInitial | src/context/ProgressContext.tsx:51-86 | with failing storage, every operation leaves the store alone and the cache initial |
| Settings.ApplyPatch | src/context/SettingsContext.tsx:65-67 | exactly the supplied fields change |
| Settings.PatchesCompose | src/context/SettingsContext.tsx:65-67 | two updates in a row equal one update with the later patch winning per field; an empty update changes nothing |
| Settings.MergeStored | src/context/SettingsContext.tsx:50-56 | a falsy stored value leaves the settings alone; an object gives each field from storage when present and from the defaults otherwise |
| Settings.SerializeRoundTrip | src/context/SettingsContext.tsx:50-63 | saved settings load back as themselves when the storage works |
| Settings.Mount | src/context/SettingsContext.tsx:19-47 | the first render shows the defaults (cuckoo, sound on, 'auto'), not loaded |
| Settings.Persist | src/context/SettingsContext.tsx:58-63 | the persist effect writes nothing before loading; after loading with working storage, a fresh load from the store shows the current settings |
| Settings.Load | src/context/SettingsContext.tsx:49-63 | loading merges the stored value, sets the loaded flag, and leaves the store holding the shown settings |
| Settings.UpdateSettings | src/context/SettingsContext.tsx:58-67 | the new settings are the patched ones; before loading the store is untouched |
| Settings.ResetSettings | src/context/SettingsContext.tsx:58-72 | the settings become the defaults and the store loads as the defaults; if the state already was the default object, or nothing is loaded yet, the key is only removed |
| Settings.ApplyKeepsPersisted | src/context/SettingsContext.tsx:49-72 | every operation keeps the store holding the current settings once loaded |
| Settings.SettingsArePersisted | src/context/SettingsContext.tsx:49-72 | across any sequence of operations, once loaded with working storage, the store holds the current settings |
| Settings.NoWritesBeforeLoad | src/context/SettingsContext.tsx:58-72 | before loading, updates leave the store alone and a reset only removes the settings key |
| Settings.ResetThenReload | src/context/SettingsContext.tsx:50-72 | after a reset, reloading the app shows the defaults |
| Settings.OtherKeysKept | src/context/SettingsContext.tsx:50-72 | settings operations never change what other keys, such as the progress record, read |
| QuizSession.AnswerStep | src/routes/GameClock.tsx:72-133 | with working storage and a coherent cache, a click keeps the cache coherent; a correct one adds 1 to the quiz count and to the stored correct answers, keeps the sessions, and from the fifth correct answer on the level reads as completed; any other click leaves the progress alone |
| QuizSession.CallsUpdateProgress | src/routes/GameClock.tsx:93-115 | carrying out the calls of one answer on a coherent provider with working storage: exactly 1 more stored correct answer for a correct answer, the level recorded once the quiz reaches 5, no change for any other answer |
| QuizSession.NoSecondMark | src/routes/GameClock.tsx:72-115 | once the cached progress lists the level, no answer marks it again |

## Left out

- Angle measurement (`calculateAngle` with `atan2`, `getMousePosition`) is left out because it is floating-point trigonometry. The drag angle is an input in degrees.
- All sin/cos coordinates are left out: handle positions, marker and numeral positions, arc paths, and the tower, cuckoo and watch ornaments. They are floating-point layout. An ornament set is represented by its tag.
- Speech playback (`speechSynthesis.cancel`/`speak`) is platform I/O. The model produces the utterance that would be spoken.
- The reported UI language, the current time, the day of the month and `Math.random()` are parameters. The randomness in `generateAnswerOptions` and the shuffle is a nondeterministic choice.
- Window listeners, `useEffect`/`useState` scheduling and the two `setTimeout` delays are not modelled as such. They are explicit events, and the durations (1.5 s, 2 s) are not modelled.
- JSON text is abstracted: a stored value reads back as itself. Fields the source does not know about, which the spread would also copy, are not represented.
- The `as T` casts are unchecked in the source. The model gives each known stored field its declared type, so a stored field of another type is not represented. A stored theme name outside the registry is not represented either.
- A storage that works for some calls and throws for others (for example, a full quota during `clear`) is not modelled. The storage either works for every access or fails for every access.
- `clear` follows the code: a stored key equal to the empty string is falsy and is kept even when the prefix is empty. With the default prefix this is the same as removing exactly the prefixed keys.
- Looking a theme up by an arbitrary string is not modelled. `CLOCK_THEMES` is an object literal, so such a lookup would also find inherited members such as `constructor`. The model only looks themes up by a theme id.
- Repositories injected into the progress provider are not modelled. Only the local repository over the shared client is.
- React's development-mode double invocation of effects is not modelled.
- `PracticeClock` calls `speakTime` without the language setting, so the setting is not assumed to reach the spoken text. Pages and presentational components are left out as UI glue.
- src/types/settings.ts declares a different, unused `AppSettings`, which is not modelled.
- Basics.JsRem: only a positive divisor is modelled, because the source only divides by 12 and 60.
- Speech.Hour12: the range is stated for non-negative hours only. For a negative hour, JavaScript's `%` gives a negative value, which the model computes but does not bound.
- Quiz.GenerateAnswerOptions: a draw that repeats an hour already present is not modelled, because it leaves the set unchanged. This covers `count` ≤ 12, the only counts for which the loop ends.
- Repository.OperationsPreserveValid: stated for non-negative counts. A negative count passed to `incrementCorrectAnswers` would lower the total below zero, and the source does not guard against that.
