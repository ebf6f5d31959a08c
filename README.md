# simpletrivia core, modelled in Dafny

A model of the logic in the simpletrivia mobile quiz app. The app has five pieces of logic:
- a local SQLite question store with `getDB`, `loadQuestions`, `resetQuestions` and `nukeAndRecreate`. No screen reads questions from it yet; its only caller is the developer reset button, which calls `nukeAndRecreate` (components/DevNukeButton.tsx:31);
- a reducer that collects the player's setup (topic, difficulty, question count);
- a constant question bank that nothing imports yet;
- the light/dark theme mode with its persisted string;
- the sound-preview throttle of the volume slider.

Files and modules:

- `wrappers.dfy` (`Wrappers`): `Option`, for optional fields and `null` results.
- `navigation_types.dfy` (`NavigationTypes`):
  - the `TopicKey` and `Difficulty` unions, with their run-time string spellings;
  - the `GameSetup` record.
- `game_setup.dfy` (`GameSetupState`):
  - the `Action` union, the initial state and the reducer, all pure;
  - `Merge`, the `{ ...state, ...value }` spread that `hydrate` performs;
  - `Replay`, which folds a sequence of dispatched actions the way `useReducer` does.
- `question_bank.dfy` (`QuestionBank`): the `Question` record, the constant bank, and its well-formedness.
- `theme.dfy` (`Theme`):
  - the mode's string encoding and decoding, palette choice and `makeNavTheme`, all pure;
  - a `ThemeProvider` class holding the `mode` state.
- `volume_slider.dfy` (`VolumeSlider`): a `PreviewThrottle` class holding the `lastPreviewRef` field. A ghost log of preview times records that value-change previews are at least the throttle apart.
- `question_store.dfy` (`QuestionStore`): a `Store` class standing for the module state of `db/sqlite.ts`:
  - the cached handle `dbRef`;
  - the `questions` table, a map from id to `Row`;
  - the `_meta` table.
  The specification functions are pure:
  - `InsertOrIgnore` is one `INSERT OR IGNORE` (db/sqlite.ts:71-79);
  - `SeedInto` is the insert loop over a row list (75-80);
  - `SeedStep` is all of `ensureSeed` on a table (62-82).
  `ensureSeed`'s insert loop is proved equal to `SeedStep`. The random-order query is a loop that picks any remaining matching row.

Three behaviours of the source that are easy to miss:

- `hydrate` spreads the stored value over the current state (state/GameSetupContext.tsx:34). So a field present in the stored value overwrites one that was set earlier.
- An explicit count of 0 is falsy in `Number(count) || 10` (db/sqlite.ts:86), so it becomes the default 10. A negative count becomes 1.
- SQLite's `INSERT OR IGNORE` (db/sqlite.ts:71) also skips a row that fails the `CHECK(correct_index BETWEEN 0 AND 3)` of line 46. So a seed row with an index outside 0..3 is dropped silently, just like a row whose id is already taken (`QuestionStore.InsertOrIgnore`).

## Model

| member | source | states |
|---|---|---|
| `NavigationTypes.ParseTopic` | navigation/types.ts:3-12 | A string reads as a topic key exactly when it is one of the nine literals of the union, and reads back to that literal |
| `NavigationTypes.ParseDifficulty` | navigation/types.ts:14 | A string reads as a difficulty exactly when it is one of the four literals, and reads back to that literal |
| `NavigationTypes.TopicNameRoundTrip` | navigation/types.ts:3-12 | Every topic key is spelled by a literal of the union and parses back to itself |
| `NavigationTypes.DifficultyNameRoundTrip` | navigation/types.ts:14 | Every difficulty is spelled by a literal of the union and parses back to itself |
| `GameSetupState.InitialState` | state/GameSetupContext.tsx:21 | The initial setup has no topic, no difficulty and no count |
| `GameSetupState.Reduce` | state/GameSetupContext.tsx:23-38 | `setTopic`, `setDifficulty` and `setCount` set their own field and leave the other two unchanged; `reset` yields the empty setup |
| `GameSetupState.HydrateFields` | state/GameSetupContext.tsx:33-34 | After `hydrate(v)`, each field present in `v` has `v`'s value and each absent field keeps the current value |
| `GameSetupState.HydrateEmptyIsIdentity` | state/GameSetupContext.tsx:33-34 | Hydrating with `{}` returns the state unchanged |
| `GameSetupState.ResetIdempotent` | state/GameSetupContext.tsx:31-32 | `reset` gives the empty setup from any state, and a second `reset` changes nothing |
| `GameSetupState.LastWriteWins` | state/GameSetupContext.tsx:25-30 | Applying the same setter twice equals applying it once with the second value |
| `GameSetupState.SettersCommute` | state/GameSetupContext.tsx:25-30 | Setters of two different fields give the same state in either order, so a later setter never undoes an earlier one |
| `GameSetupState.ReplayAppend` | state/GameSetupContext.tsx:53 | Dispatching `xs` then `ys` ends where dispatching `ys` from the state after `xs` ends |
| `GameSetupState.ReplayAfterReset` | state/GameSetupContext.tsx:31-32 | Whatever came before a `reset`, the actions after it act as if dispatched from the initial state |
| `GameSetupState.ReplayKeepsTopic` | state/GameSetupContext.tsx:25-34 | A run of actions that are not `setTopic`, `reset` or a topic-carrying `hydrate` leaves the topic as it was |
| `QuestionBank.BankWellFormed` | data/questions.ts:4-61 | The bank's ids are pairwise distinct; every question has exactly four answers and a `correctIndex` inside them; every topic and difficulty is spelled by a literal of its union |
| `QuestionBank.BankComposition` | data/questions.ts:13-61 | The bank holds five questions: two Math/easy, and one each of Science/medium, History/hard and Technology/impossible; it holds none of Geography/easy |
| `Theme.EncodeMode` | theme/ThemeProvider.tsx:72-74 | The stored string is `"true"` exactly for dark and `"false"` exactly for light |
| `Theme.DecodeSaved` | theme/ThemeProvider.tsx:65-69 | A missing or empty saved value keeps the current mode; `"true"` gives dark; any other non-empty string gives light |
| `Theme.ModeRoundTrip` | theme/ThemeProvider.tsx:68-73 | Decoding the string written for a mode gives that mode back, whatever the current mode is |
| `Theme.EncodeInjective` | theme/ThemeProvider.tsx:73 | Different modes are saved as different strings |
| `Theme.Palette` | theme/ThemeProvider.tsx:76 | The palette is `darkColors` exactly when the mode is dark, and `lightColors` exactly when it is light |
| `Theme.NavBase` | theme/ThemeProvider.tsx:78 | The navigation base theme is the library's dark theme in dark mode and its default theme in light mode |
| `Theme.MakeNavTheme` | theme/ThemeProvider.tsx:47-58 | background, text, card, border and primary come from the palette, and notification is the primary colour. Every other colour key, `dark` and the other base fields are unchanged, and no other key is added |
| `Theme.MakeNavThemeIdempotent` | theme/ThemeProvider.tsx:47-58 | Applying `makeNavTheme` with the same palette to its own result changes nothing |
| `Theme.ThemeProvider.constructor` | theme/ThemeProvider.tsx:63 | The mode starts light |
| `Theme.ThemeProvider.Restore` | theme/ThemeProvider.tsx:65-70 | The mode after mount is the saved value decoded against the current mode |
| `Theme.ThemeProvider.SetMode` | theme/ThemeProvider.tsx:63-74 | The mode becomes the given one, and the value then persisted is its encoding |
| `Theme.ThemeProvider.CurrentTheme` | theme/ThemeProvider.tsx:76-82 | The exposed theme carries the mode, that mode's palette, and the navigation theme built from the palette and the mode's base |
| `VolumeSlider.SpacedPairwise` | components/VolumeSlider.tsx:38-42 | With a non-negative throttle, when neighbouring preview times are at least the throttle apart, any two of them are ordered and at least the throttle apart |
| `VolumeSlider.PreviewThrottle.constructor` | components/VolumeSlider.tsx:25-32 | `lastPreview` starts at 0 with no previews played; the throttle is the given one, 150 when none is given |
| `VolumeSlider.PreviewThrottle.PreviewsApart` | components/VolumeSlider.tsx:39-41 | With a non-negative throttle, any two previews fired by value changes are at least the throttle apart, whatever the clock readings were |
| `VolumeSlider.PreviewThrottle.HandleValueChange` | components/VolumeSlider.tsx:35-43 | `onChange` always receives the value. A preview fires exactly when `onPreview` is given and `now - last >= throttle`. `last` becomes `now` exactly when it fires, and it is unchanged when no `onPreview` is given |
| `VolumeSlider.PreviewThrottle.HandleSlidingComplete` | components/VolumeSlider.tsx:45-47 | Finishing a slide previews exactly when `onPreview` is given and leaves `last` unchanged |
| `QuestionStore.SeedKeepsExisting` | db/sqlite.ts:69-81 | Seeding never removes or overwrites a row that was already stored |
| `QuestionStore.SeedKeys` | db/sqlite.ts:69-81 | After seeding, an id is stored exactly when it was before, or when some seed row with that id passes the CHECK constraint |
| `QuestionStore.SeedFirstWins` | db/sqlite.ts:69-81 | A new id holds the first seed row with that id that passes the CHECK; later duplicates are ignored |
| `QuestionStore.SeedValid` | db/sqlite.ts:37-81 | Seeding keeps every row under its own id and every `correct_index` in 0..3 |
| `QuestionStore.SeedNoop` | db/sqlite.ts:69-81 | Inserting into a table that already holds every acceptable seed id changes nothing |
| `QuestionStore.SeedIdempotent` | db/sqlite.ts:69-81 | Running the seed inserts twice leaves the same table as running them once |
| `QuestionStore.SeedStepIdempotent` | db/sqlite.ts:62-82 | Running `ensureSeed` twice leaves the same table as running it once |
| `QuestionStore.EffectiveCount` | db/sqlite.ts:86 | The limit is always in 1..100. A count of 0 gives 10, negative counts give 1, counts above 100 give 100, and 1..100 pass through unchanged |
| `QuestionStore.SelectionChecked` | db/sqlite.ts:88-99 | Every row a query returns from a constrained table has `correct_index` in 0..3 |
| `QuestionStore.SelectMatching` | db/sqlite.ts:88-99 | Every returned row is a stored row whose topic and difficulty equal the arguments. No id repeats. The length is the smaller of the limit and the number of matching rows |
| `QuestionStore.Connection.constructor` | db/sqlite.ts:7-22 | A newly opened handle is for the file `trivia.db` |
| `QuestionStore.Store.constructor` | db/sqlite.ts:18 | A store over the given tables with no cached handle |
| `QuestionStore.Store.EnsureSchema` | db/sqlite.ts:28-60 | `_meta["schema_version"]` becomes `"1"` and nothing else changes; when the version is already recorded, nothing changes at all |
| `QuestionStore.Store.EnsureSeed` | db/sqlite.ts:62-82 | The table becomes the seed step of the old table. It is unchanged when it already has a row or the seed list is empty, and the table constraints still hold |
| `QuestionStore.Store.GetDB` | db/sqlite.ts:20-26 | With a cached handle: that handle is returned and no table changes. Without one: a fresh handle is cached, the schema version is recorded, and the table is seeded |
| `QuestionStore.Store.LoadQuestions` | db/sqlite.ts:84-100 | The store is opened as `getDB` does, and the result is a selection of matching stored rows limited by the effective count |
| `QuestionStore.Store.ResetQuestions` | db/sqlite.ts:104-110 | The handle is kept, or opened fresh if none was cached. The table ends equal to seeding an empty table |
| `QuestionStore.Store.NukeAndRecreate` | db/sqlite.ts:113-121 | The handle is fresh, the table equals seeding an empty table, and `_meta` holds only `schema_version = "1"` |

## Left out

- The game session (lives, won/lost, the 750 ms deferred advance, the double-submit guard): pages/GameScreen.tsx:7-16 only draws a title and a back button, so there is no code to model.
- The SQLite driver is not modelled: SQL text, `executeSql`, transactions, `close`, `SQLite.deleteDatabase` and the `(topic, difficulty)` index. These are foreign calls. Only their effect on the two tables is modelled, and storage failures are not modelled.
- The seed list (`./seed`) is not part of this model: it is the constructor parameter `seed`.
- QuestionStore.Store.LoadQuestions: the `ORDER BY RANDOM()` order is not constrained. Any duplicate-free choice of matching rows of the right length is allowed, as the query promises nothing more.
- Concurrency is not modelled: the `await` interleavings, including two overlapping `getDB` calls that both open a handle before `dbRef` is set (db/sqlite.ts:21-22); and the order between the theme's mount-time read and its first write.
- AsyncStorage and JSON are not modelled: reading and writing `@gameSetup` and `settings.darkMode`, and `JSON.parse` of a stored setup. A stored value is taken to be a well-typed `GameSetup`, and the saved mode string is a parameter.
- Floating point and number parsing are not modelled: volume values, `Math.round(value * 100)`, `Number(count)`, and `Math.floor` or NaN on non-integer counts. Counts are integers and the slider value is passed through unchanged.
- VolumeSlider.PreviewThrottle.PreviewsApart: stated for a non-negative throttle only. A negative `previewThrottleMs` puts no lower bound on spacing.
- `Date.now()` is the `now` parameter of `HandleValueChange`. A change of `previewThrottleMs` between renders is not modelled; the throttle is fixed per slider.
- UI glue with no logic in this core is not modelled: the `ThemeToggle` control, the settings screen's own storage reads, the sound player, navigation wiring, animations and `locked` gates, styling components, fonts and immersive mode.
- The reducer's `default` branch is not modelled: it is unreachable with the closed `Action` union.
