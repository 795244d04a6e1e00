# Drink-Reminder core, modelled in Dafny

This project models the core logic of the Drink-Reminder Android app, which is written in Kotlin. The app
reminds its user to drink water and to take work breaks. The model covers six parts.

- **Foreground-app detection** (`app_detection.dfy`):
  - the usage-event scan for the latest resumed activity, which is discarded when older than 2 minutes;
  - the usage-stats fallback, with its clamped query window and activity threshold;
  - the whitelist check;
  - the installed-app list: non-core apps, one per package, sorted by label.
- **Whitelist storage** (`whitelist.dfy`):
  - the `package|label|enabled;…` text format and its round trip;
  - the list edits `addApp`, `removeApp` and `toggleAppEnabled`, plus the enabled-package set;
  - the repository object, whose cache and preferences file are updated by every edit.
- **Drink settings**:
  - the settings codec over `SharedPreferences`, with its defaults (`drink_settings.dfy`);
  - the view model's state transitions (`settings_view_model.dfy`);
  - the screen's start/end time normalisation, weekday toggles and numeric-field guards (`settings_screen.dfy`).
- **Drink ledger**:
  - the record type and its `yyyy-MM-dd` key (`drink_record.dfy`);
  - the DAO: a table of rows with a next key, the SUM and GROUP BY/ORDER BY/LIMIT queries, and the deletes (`drink_record_dao.dfy`);
  - the repository (`drink_record_repository.dfy`);
  - the statistics screen's integer aggregates (`statistics.dfy`).
- **Work/rest timer**:
  - `ReminderService` over a queue of pending `Handler` messages (`reminder_service.dfy`);
  - `PreferenceHelper` (`preference_helper.dfy`);
  - the notification ids on show (`notifications.dfy`);
  - the rest screen's countdown, clock display and postpone route (`rest_activity.dfy`).
- **Drink popup** (`drink_activity.dfy`): the 15-second countdown and the drink, skip and finish routes.

Shared modules model the Kotlin and platform behaviour the app relies on:

- `kotlin_int.dfy`: 32-bit `Int` wrap-around, and `/` and `%` truncating toward zero;
- `text.dfy`: `split` (keeps trailing empty pieces), `joinToString`, `toIntOrNull`, `%02d`, `toBoolean` and string ordering;
- `collections.dfy`: `filter`, `distinctBy` (keeps the first), a stable `sortedBy`, `take` and `sumOf`;
- `prefs.dfy`: typed `SharedPreferences` reads with defaults;
- `wrappers.dfy`: `Option`.

## Modelling choices

- Objects whose fields change are classes with `modifies` clauses:
  - the whitelist repository's cache;
  - the two preference files;
  - the view model's state;
  - the DAO's table;
  - the service's runnables, counter and message queue;
  - the activities' counters.
- Pure Kotlin expressions are functions, with lemmas about them. The event loop of `getCurrentForegroundAppByEvents` is a method with a loop invariant, proved against a function.
- Platform results are inputs:
  - usage events and stats are `Option` sequences, where `None` means the query threw;
  - the running-task answer used without usage access is an opaque optional package;
  - "now" and "today" are parameters.
- Time is not modelled:
  - each run of a `LaunchedEffect` countdown is one step;
  - any pending `Handler` message may run next;
  - coroutine launches (`addDrinkRecord`, `save`) complete at once.
- Choices where the code alone decides the behaviour:
  - Without usage access, the detector asks `getRunningTasks` for the top task (`AppDetectionUtils.kt:81-97`). The model takes that answer as an opaque optional package.
  - The settings repository reads `usePopupReminder` with default `true` and writes it back (`DrinkSettingsRepository.kt:18`, `:32`). `DrinkReminderSettings.kt:3-11` has no such field as shown, so the model's settings record adds it. The view model's initial `DrinkReminderSettings()` (`DrinkSettingsState.kt:4`) is taken to default it to `true` as well, as `DefaultSettings` does.
  - `ReminderService.kt:21-24` declares only `ACTION_START_TIMER` and `ACTION_RESTART_WORK`. The drink popup sends `ACTION_RECORD_DRINK` (`DrinkActivity.kt:124`), which the model takes as a third, different string. `onStartCommand` (`ReminderService.kt:55`) treats it like any other action and only re-posts its foreground notification.
  - The work delay `workMinutes * 60 * 1000L` (`ReminderService.kt:66`) multiplies in `Int` before widening. The model keeps that wrap (`StartDelay`, `StartDelayWraps`).
- Functions that only compute a value are specified by the lemmas after them, and the table below names those lemmas. For example, `Upsert` is specified by `UpsertSpec`, and `InstalledApps` by the `InstalledApps…` lemmas.

## Model

| member | source | states |
|---|---|---|
| KotlinInt.Wrap32 | app/src/main/java/com/example/reminder/features/drink/data/database/DrinkRecordDao.kt:12-13 | An `Int` result is the exact value modulo 2^32, and the value itself when it fits in 32 bits. |
| KotlinInt.TruncDiv | app/src/main/java/com/example/reminder/features/statistics/presentation/DrinkStatisticsScreen.kt:222 | Kotlin `/` rounds toward zero: `q * b` lies between 0 and the dividend, less than the divisor's size away from it, for either sign; for a non-negative dividend and a positive divisor it is the floor. |
| KotlinInt.TruncMod | app/src/main/java/com/example/reminder/RestActivity.kt:80 | Kotlin `%`: quotient times divisor plus remainder is the dividend; the remainder takes the dividend's sign and is smaller than the divisor. |
| KotlinInt.Wrap32Add | app/src/main/java/com/example/reminder/features/statistics/presentation/DrinkStatisticsScreen.kt:221 | `Int` addition is addition modulo 2^32, so wrapping an intermediate sum does not change the wrapped total. |
| Wrappers.GetOr | app/src/main/java/com/example/reminder/features/drink/data/repository/DrinkRecordRepository.kt:21 | `x ?: d`: the default for null, the value otherwise. |
| Wrappers.OrElse | app/src/main/java/com/example/reminder/utils/AppDetectionUtils.kt:72 | `a ?: b` on nullable results: `a` when it is present, `b` otherwise. |
| Text.Split | app/src/main/java/com/example/reminder/features/drink/domain/repository/WhitelistRepository.kt:26-27 | `split(c)` yields at least one piece, and no piece contains the separator. |
| Text.SplitJoin | app/src/main/java/com/example/reminder/features/drink/domain/repository/WhitelistRepository.kt:50 | Splitting a `joinToString(c)` of separator-free pieces gives the pieces back. |
| Text.SplitAtSeparator | app/src/main/java/com/example/reminder/features/drink/domain/repository/WhitelistRepository.kt:26-27 | `split` cuts at the first separator: the piece before it, then the split of the rest. |
| Text.ParseInt | app/src/main/java/com/example/reminder/features/drink/domain/repository/DrinkSettingsRepository.kt:13 | `toIntOrNull`/`toInt`: a value is parsed only from an optional sign followed by at least one digit and nothing else, so non-numeric text gives None (the call fails or throws). |
| Text.ParseIntToString | app/src/main/java/com/example/reminder/features/drink/domain/repository/DrinkSettingsRepository.kt:13 | Every `Int` printed with `toString` parses back to itself. |
| Text.IntToString | app/src/main/java/com/example/reminder/features/drink/domain/repository/DrinkSettingsRepository.kt:27 | `Int.toString`: the decimal digits of the value, preceded by `-` when it is negative. |
| Text.IntToStringInjective | app/src/main/java/com/example/reminder/features/drink/domain/repository/DrinkSettingsRepository.kt:27 | Distinct `Int`s print to distinct strings, so the weekday set keeps its size when saved. |
| Text.Format02 | app/src/main/java/com/example/reminder/features/drink/data/database/DrinkRecord.kt:18 | `%02d` gives at least two decimal digits. |
| Text.Format02Order | app/src/main/java/com/example/reminder/features/drink/data/database/DrinkRecord.kt:18 | For values below 100, `%02d` strings compare like the numbers, and are equal only for equal numbers. |
| Text.NatToDigitsOrder | app/src/main/java/com/example/reminder/features/drink/data/database/DrinkRecord.kt:18 | Decimal strings of equal length compare like the numbers they denote. |
| Text.DigitsValueOfNatToDigits | app/src/main/java/com/example/reminder/features/drink/data/database/DrinkRecord.kt:18 | Reading back the decimal digits of a number gives the number. |
| Text.LexLeTotal | app/src/main/java/com/example/reminder/utils/AppDetectionUtils.kt:218 | String comparison is total. |
| Text.LexLeTransitive | app/src/main/java/com/example/reminder/utils/AppDetectionUtils.kt:218 | String comparison is transitive. |
| Text.LexLeAntisymmetric | app/src/main/java/com/example/reminder/features/drink/data/database/DrinkRecordDao.kt:24-28 | Strings that compare both ways are equal. |
| Text.ToBooleanOfBoolToString | app/src/main/java/com/example/reminder/features/drink/domain/repository/WhitelistRepository.kt:32 | `toBoolean` of a printed `Boolean` gives the `Boolean` back. |
| Collections.Filter | app/src/main/java/com/example/reminder/features/drink/domain/repository/WhitelistRepository.kt:80 | `filter` keeps only elements satisfying the predicate, each taken from the input. |
| Collections.FilterMultiset | app/src/main/java/com/example/reminder/features/drink/domain/repository/WhitelistRepository.kt:80 | `filter` keeps each satisfying element exactly as often as it occurs, and drops the rest. |
| Collections.FilterDistinctKeys | app/src/main/java/com/example/reminder/features/drink/data/database/DrinkRecordDao.kt:33-37 | Filtering a list with distinct keys leaves distinct keys. |
| Collections.Take | app/src/main/java/com/example/reminder/features/drink/data/database/DrinkRecordDao.kt:24-28 | `LIMIT n`: the first `min(n, size)` rows, as a prefix. |
| Collections.DistinctBy | app/src/main/java/com/example/reminder/utils/AppDetectionUtils.kt:217 | `distinctBy` keeps only elements of the input and never grows the list; order is stated by `DistinctByKeepsOrder`. |
| Collections.DistinctByUniqueKeys | app/src/main/java/com/example/reminder/utils/AppDetectionUtils.kt:217 | After `distinctBy`, no key occurs twice. |
| Collections.DistinctByCoversKeys | app/src/main/java/com/example/reminder/utils/AppDetectionUtils.kt:217 | Every key of the input is still represented after `distinctBy`. |
| Collections.DistinctByKeepsFirst | app/src/main/java/com/example/reminder/utils/AppDetectionUtils.kt:217 | `distinctBy` keeps the first element with each key. |
| Collections.DistinctByKeepsOrder | app/src/main/java/com/example/reminder/utils/AppDetectionUtils.kt:217 | Two kept elements appear in the output in the order of their first occurrences in the input. |
| Collections.SortBy | app/src/main/java/com/example/reminder/utils/AppDetectionUtils.kt:218 | `sortedBy` returns a permutation of its input; stability is stated by `SortByStable`. |
| Collections.SortBySorted | app/src/main/java/com/example/reminder/utils/AppDetectionUtils.kt:218 | `sortedBy` under a total preorder returns a sorted list. |
| Collections.InsertByStable | app/src/main/java/com/example/reminder/utils/AppDetectionUtils.kt:218 | Inserting into a sorted list puts the new element after every element it ties with, and keeps the ties' order. |
| Collections.SortByStable | app/src/main/java/com/example/reminder/utils/AppDetectionUtils.kt:218 | `sortedBy` is stable: the elements tying with any given one keep their input order. |
| Collections.CountOf | app/src/main/java/com/example/reminder/features/statistics/presentation/DrinkStatisticsScreen.kt:223 | `count` never exceeds the size of the list. |
| Collections.CountOfExtremes | app/src/main/java/com/example/reminder/features/statistics/presentation/DrinkStatisticsScreen.kt:223 | `count` equals the size iff every element qualifies, and is 0 iff none does. |
| Collections.SumOfBounds | app/src/main/java/com/example/reminder/features/statistics/presentation/DrinkStatisticsScreen.kt:221 | A sum of `n` values that each lie in [lo, hi] lies in [n*lo, n*hi]. |
| Prefs.GetInt | app/src/main/java/com/example/reminder/features/drink/domain/repository/DrinkSettingsRepository.kt:11 | `getInt(key, d)`: `d` for an absent key, the stored value otherwise. |
| Prefs.GetBool | app/src/main/java/com/example/reminder/features/drink/domain/repository/WhitelistRepository.kt:18 | `getBoolean(key, d)`: `d` for an absent key, the stored value otherwise. |
| Prefs.GetString | app/src/main/java/com/example/reminder/features/drink/domain/repository/WhitelistRepository.kt:19 | `getString(key, d)`: `d` for an absent key, the stored value otherwise. |
| Prefs.GetStringSet | app/src/main/java/com/example/reminder/features/drink/domain/repository/DrinkSettingsRepository.kt:13 | `getStringSet(key, d)`: `d` for an absent key, the stored value otherwise. |
| AppDetection.StatsWindowMinutes | app/src/main/java/com/example/reminder/utils/AppDetectionUtils.kt:143 | The stats window is `max(30, min(interval, 120))`: always in [30, 120], equal to the interval inside that range, and clamped outside it. |
| AppDetection.StatsQueryStart | app/src/main/java/com/example/reminder/utils/AppDetectionUtils.kt:144-156 | The stats query starts between 120 and 30 minutes before now. |
| AppDetection.ActiveThresholdMinutes | app/src/main/java/com/example/reminder/utils/AppDetectionUtils.kt:147 | The active threshold is `max(5, min(interval/2, 30))`: always in [5, 30] and half the interval in between. |
| AppDetection.ScanResumedIsLatest | app/src/main/java/com/example/reminder/utils/AppDetectionUtils.kt:108-117 | The event loop holds the resumed event with the greatest positive time stamp, the first one on ties, and nothing when there is none. |
| AppDetection.LatestResumedEvent | app/src/main/java/com/example/reminder/utils/AppDetectionUtils.kt:108-117 | The `while` loop over the events ends in the state the scan specification gives. |
| AppDetection.ForegroundByEvents | app/src/main/java/com/example/reminder/utils/AppDetectionUtils.kt:103-135 | The event path as a method: its result is the event result. |
| AppDetection.EventResultIsRecentLatest | app/src/main/java/com/example/reminder/utils/AppDetectionUtils.kt:119-130 | A package from the event path comes from the latest resumed event, and that event is at most 120000 ms old. |
| AppDetection.EventAgeBoundary | app/src/main/java/com/example/reminder/utils/AppDetectionUtils.kt:124 | An event exactly 120000 ms old is still accepted, and one 120001 ms old is dropped. |
| AppDetection.MaxByLastUsedIsFirstMax | app/src/main/java/com/example/reminder/utils/AppDetectionUtils.kt:166 | `maxByOrNull { lastTimeUsed }` is null only for an empty list, and otherwise is the first entry with the greatest time. |
| AppDetection.StatsResultIsRecentLatest | app/src/main/java/com/example/reminder/utils/AppDetectionUtils.kt:158-182 | A package from the stats path is a candidate with positive use times, the latest one used, and used within the active threshold. |
| AppDetection.CurrentForegroundApp | app/src/main/java/com/example/reminder/utils/AppDetectionUtils.kt:59-98 | The detector as a method: its result is the event result, falling back to the stats result with access granted, or the running-task answer without access. |
| AppDetection.EventAnswerHidesStats | app/src/main/java/com/example/reminder/utils/AppDetectionUtils.kt:72 | When the event path answers, the stats path is not consulted: `?:` is a fallback, not a union. |
| AppDetection.IsWhitelistAppActive | app/src/main/java/com/example/reminder/utils/AppDetectionUtils.kt:248-260 | An empty whitelist gives false without detection; otherwise the result is true iff the detected package is in the whitelist. |
| AppDetection.ActiveMeansRecentWhitelistedUse | app/src/main/java/com/example/reminder/utils/AppDetectionUtils.kt:248-260 | With usage access, 'active' implies a whitelisted package has a recent resume event or a recent stats entry. |
| AppDetection.RecentLatestResumeIsActive | app/src/main/java/com/example/reminder/utils/AppDetectionUtils.kt:103-135 | A whitelisted package whose resume is the strictly latest and at most 2 minutes old makes the check true. |
| AppDetection.ResolvedNonCore | app/src/main/java/com/example/reminder/utils/AppDetectionUtils.kt:201-216 | `mapNotNull` keeps exactly the resolved entries that are not system-core packages. |
| AppDetection.ResolvedNonCoreAppend | app/src/main/java/com/example/reminder/utils/AppDetectionUtils.kt:201-216 | `mapNotNull` keeps input order: one more resolved entry appends that entry exactly when it is present and not system-core. |
| AppDetection.NameLeIsTotalPreorder | app/src/main/java/com/example/reminder/utils/AppDetectionUtils.kt:218 | Ordering by label is a total preorder, so `sortedBy` on it sorts. |
| AppDetection.InstalledAppsAreResolvedNonCore | app/src/main/java/com/example/reminder/utils/AppDetectionUtils.kt:192-219 | Every listed app was resolved and is not a system-core package. |
| AppDetection.InstalledAppsUniquePackages | app/src/main/java/com/example/reminder/utils/AppDetectionUtils.kt:217 | No package is listed twice. |
| AppDetection.InstalledAppsCoverResolved | app/src/main/java/com/example/reminder/utils/AppDetectionUtils.kt:200-217 | Every resolved non-core package is listed. |
| AppDetection.InstalledAppsKeepFirst | app/src/main/java/com/example/reminder/utils/AppDetectionUtils.kt:217 | Each listed app is the first non-core resolved entry with its package. |
| AppDetection.InstalledAppsTiesKeepOrder | app/src/main/java/com/example/reminder/utils/AppDetectionUtils.kt:217-218 | Apps with equal names are listed in the order they were resolved. |
| AppDetection.InstalledAppsSorted | app/src/main/java/com/example/reminder/utils/AppDetectionUtils.kt:218 | The list is sorted by label. |
| Whitelist.MapEncode | app/src/main/java/com/example/reminder/features/drink/domain/repository/WhitelistRepository.kt:50-52 | Each app is written as one record of three bar-separated fields (package, label, enabled), in list order. |
| Whitelist.DecodeApp | app/src/main/java/com/example/reminder/features/drink/domain/repository/WhitelistRepository.kt:27-34 | A record gives an app exactly when it splits into three fields. |
| Whitelist.DecodeRecords | app/src/main/java/com/example/reminder/features/drink/domain/repository/WhitelistRepository.kt:26-35 | `mapNotNull` never yields more apps than records. |
| Whitelist.EncodeAppRoundTrip | app/src/main/java/com/example/reminder/features/drink/domain/repository/WhitelistRepository.kt:26-35 | A record of an app whose names contain neither separator character contains no `;` and parses back to the same app. |
| Whitelist.JoinAvoids | app/src/main/java/com/example/reminder/features/drink/domain/repository/WhitelistRepository.kt:50 | Joining pieces that avoid a character other than the separator yields a string that avoids it too. |
| Whitelist.DecodeRecordsAppend | app/src/main/java/com/example/reminder/features/drink/domain/repository/WhitelistRepository.kt:26-35 | `mapNotNull` keeps record order: decoding a concatenation concatenates the decodings, and one record yields its app exactly when it parses. |
| Whitelist.DecodeRecordsOfEncodings | app/src/main/java/com/example/reminder/features/drink/domain/repository/WhitelistRepository.kt:26-35 | Parsing the records of storable apps gives the apps back. |
| Whitelist.AppsRoundTrip | app/src/main/java/com/example/reminder/features/drink/domain/repository/WhitelistRepository.kt:15-60 | Parsing a saved app list gives the list back, the empty list included. |
| Whitelist.LabelWithBarIsDropped | app/src/main/java/com/example/reminder/features/drink/domain/repository/WhitelistRepository.kt:28-32 | An app whose label contains the field separator is written as four fields, so it is lost on the next load. |
| Whitelist.LoadEmpty | app/src/main/java/com/example/reminder/features/drink/domain/repository/WhitelistRepository.kt:18-22 | An empty file loads as an empty list with the whitelist enabled. |
| Whitelist.SaveLoadRoundTrip | app/src/main/java/com/example/reminder/features/drink/domain/repository/WhitelistRepository.kt:15-60 | Loading after saving storable settings gives the settings back, and the save changes no other key. |
| Whitelist.IndexOfPackage | app/src/main/java/com/example/reminder/features/drink/domain/repository/WhitelistRepository.kt:67 | `indexOfFirst`: the first index with the package, or -1 when no app has it. |
| Whitelist.UpsertSpec | app/src/main/java/com/example/reminder/features/drink/domain/repository/WhitelistRepository.kt:62-76 | `addApp` replaces exactly the entry at the first index with that package, or appends the app when there is none; the list grows only for a new package, and apps of other packages keep their places. |
| Whitelist.UpsertKeepsUnique | app/src/main/java/com/example/reminder/features/drink/domain/repository/WhitelistRepository.kt:67-72 | `addApp` keeps the packages of a list unique. |
| Whitelist.RemoveSpec | app/src/main/java/com/example/reminder/features/drink/domain/repository/WhitelistRepository.kt:78-83 | `removeApp` drops every entry with the package and keeps every other app as often as it occurred. |
| Whitelist.RemoveKeepsOrder | app/src/main/java/com/example/reminder/features/drink/domain/repository/WhitelistRepository.kt:78-83 | `removeApp` keeps the order of the remaining apps: removing from a concatenation removes from each part, and a single app stays exactly when its package differs. |
| Whitelist.Toggle | app/src/main/java/com/example/reminder/features/drink/domain/repository/WhitelistRepository.kt:87-91 | `toggleAppEnabled` keeps the list's length. |
| Whitelist.ToggleSpec | app/src/main/java/com/example/reminder/features/drink/domain/repository/WhitelistRepository.kt:85-94 | Only the enabled flags of the entries with that package flip; names and order stay. |
| Whitelist.ToggleTwice | app/src/main/java/com/example/reminder/features/drink/domain/repository/WhitelistRepository.kt:85-94 | Toggling the same package twice restores the list. |
| Whitelist.EnabledPackages | app/src/main/java/com/example/reminder/features/drink/domain/repository/WhitelistRepository.kt:102-109 | A package is reported iff the whitelist is enabled and some enabled entry has that package. |
| Whitelist.RemovedIsNotEnabled | app/src/main/java/com/example/reminder/features/drink/domain/repository/WhitelistRepository.kt:78-109 | A removed package is never reported enabled. |
| Whitelist.AddedIsEnabled | app/src/main/java/com/example/reminder/features/drink/domain/repository/WhitelistRepository.kt:62-109 | An enabled app that was just added is reported while the whitelist is enabled. |
| Whitelist.WhitelistRepository.constructor | app/src/main/java/com/example/reminder/features/drink/domain/repository/WhitelistRepository.kt:11 | The cache starts at the default settings. |
| Whitelist.WhitelistRepository.LoadWhitelist | app/src/main/java/com/example/reminder/features/drink/domain/repository/WhitelistRepository.kt:15-44 | `loadWhitelist` returns the parsed file and caches it, writing nothing. |
| Whitelist.WhitelistRepository.SaveWhitelist | app/src/main/java/com/example/reminder/features/drink/domain/repository/WhitelistRepository.kt:46-60 | `saveWhitelist` writes both keys and caches the settings; for storable names a fresh load of the file then equals the cache. |
| Whitelist.WhitelistRepository.AddApp | app/src/main/java/com/example/reminder/features/drink/domain/repository/WhitelistRepository.kt:62-76 | `addApp` saves the cached settings with the app upserted; a fresh load then equals the cache. |
| Whitelist.WhitelistRepository.RemoveApp | app/src/main/java/com/example/reminder/features/drink/domain/repository/WhitelistRepository.kt:78-83 | `removeApp` saves the cached settings with the package removed; a fresh load then equals the cache. |
| Whitelist.WhitelistRepository.ToggleAppEnabled | app/src/main/java/com/example/reminder/features/drink/domain/repository/WhitelistRepository.kt:85-94 | `toggleAppEnabled` saves the cached settings with that package toggled; a fresh load then equals the cache. |
| Whitelist.WhitelistRepository.SetWhitelistEnabled | app/src/main/java/com/example/reminder/features/drink/domain/repository/WhitelistRepository.kt:96-100 | `setWhitelistEnabled` saves the cached settings with only the switch changed; a fresh load then equals the cache. |
| Whitelist.WhitelistRepository.GetEnabledPackageNames | app/src/main/java/com/example/reminder/features/drink/domain/repository/WhitelistRepository.kt:102-109 | The enabled packages of the cached settings, empty when the whitelist is off. |
| DrinkSettings.ParseDays | app/src/main/java/com/example/reminder/features/drink/domain/repository/DrinkSettingsRepository.kt:13 | The stored weekday strings parse iff every one is an integer, and then the result is exactly the set of parsed values. |
| DrinkSettings.DaysRoundTrip | app/src/main/java/com/example/reminder/features/drink/domain/repository/DrinkSettingsRepository.kt:13 | Saving a weekday set and loading it gives the same set. |
| DrinkSettings.ReadEmptyIsDefault | app/src/main/java/com/example/reminder/features/drink/domain/repository/DrinkSettingsRepository.kt:8-19 | A file without any of the eight keys loads as the defaults (1000 ml, 60 min, Monday to Friday, 9:00-18:00, popup on). |
| DrinkSettings.WriteReadRoundTrip | app/src/main/java/com/example/reminder/features/drink/domain/repository/DrinkSettingsRepository.kt:8-33 | Loading after saving gives the saved settings. |
| DrinkSettings.WriteTouchesOnlySettingsKeys | app/src/main/java/com/example/reminder/features/drink/domain/repository/DrinkSettingsRepository.kt:22-33 | Saving writes the eight setting keys and no other key. |
| DrinkSettings.BadWeekdayFailsLoad | app/src/main/java/com/example/reminder/features/drink/domain/repository/DrinkSettingsRepository.kt:13 | A stored weekday that is not an integer makes the load fail (`toInt` throws). |
| DrinkSettings.DrinkSettingsRepository.constructor | app/src/main/java/com/example/reminder/features/drink/domain/repository/DrinkSettingsRepository.kt:9 | The repository wraps its preferences file. |
| DrinkSettings.DrinkSettingsRepository.LoadSettings | app/src/main/java/com/example/reminder/features/drink/domain/repository/DrinkSettingsRepository.kt:8-19 | `loadSettings` reads the file with defaults; a bad weekday makes it fail. |
| DrinkSettings.DrinkSettingsRepository.SaveSettings | app/src/main/java/com/example/reminder/features/drink/domain/repository/DrinkSettingsRepository.kt:22-33 | `saveSettings` writes the eight keys, after which the file loads as the saved settings. |
| SettingsViewModel.DrinkSettingsViewModel.constructor | app/src/main/java/com/example/reminder/features/drink/presentation/settings/DrinkSettingsViewModel.kt:14 | The state starts at the default settings, not saved. |
| SettingsViewModel.DrinkSettingsViewModel.Load | app/src/main/java/com/example/reminder/features/drink/presentation/settings/DrinkSettingsViewModel.kt:17-20 | `load` replaces the settings with those read from the file and keeps the saved flag. |
| SettingsViewModel.DrinkSettingsViewModel.UpdateSettings | app/src/main/java/com/example/reminder/features/drink/presentation/settings/DrinkSettingsViewModel.kt:22-24 | `updateSettings` installs new settings and clears the saved flag. |
| SettingsViewModel.DrinkSettingsViewModel.UpdateField | app/src/main/java/com/example/reminder/features/drink/presentation/settings/DrinkSettingsViewModel.kt:26-29 | `updateField(f)` installs `f` of the current settings and clears the saved flag. |
| SettingsViewModel.DrinkSettingsViewModel.Save | app/src/main/java/com/example/reminder/features/drink/presentation/settings/DrinkSettingsViewModel.kt:31-36 | `save` writes the settings on screen and then sets the saved flag; while the flag is set the file holds the settings on screen. |
| SettingsViewModel.DrinkSettingsViewModel.ClearSavedFlag | app/src/main/java/com/example/reminder/features/drink/presentation/settings/DrinkSettingsViewModel.kt:38-40 | `clearSavedFlag` clears the flag and keeps the settings. |
| SettingsScreen.MinuteOfDay | app/src/main/java/com/example/reminder/features/drink/presentation/settings/DrinkSettingsScreen.kt:354-355 | `hour * 60 + minute` for a picker time is its minute of the day. |
| SettingsScreen.OnStartTimeSelected | app/src/main/java/com/example/reminder/features/drink/presentation/settings/DrinkSettingsScreen.kt:352-373 | Picking a start sets it. An end that is not later moves to the picked minute at hour `(hour + 1) % 24`, so 23 wraps to 0. Nothing else changes, all times stay valid picker times, and the window is ordered unless the start hour is 23. |
| SettingsScreen.StartAtElevenPmBreaksOrder | app/src/main/java/com/example/reminder/features/drink/presentation/settings/DrinkSettingsScreen.kt:359 | A start at 23:xx that meets the end wraps the end to 0:xx, before the start. |
| SettingsScreen.OnEndTimeSelected | app/src/main/java/com/example/reminder/features/drink/presentation/settings/DrinkSettingsScreen.kt:384-405 | Picking an end sets it. A start that is not earlier moves to the picked minute at hour `(hour + 23) % 24`, so 0 wraps to 23. Nothing else changes, all times stay valid picker times, and the window is ordered unless the end hour is 0. |
| SettingsScreen.EndAtMidnightBreaksOrder | app/src/main/java/com/example/reminder/features/drink/presentation/settings/DrinkSettingsScreen.kt:391 | An end at 0:xx that meets the start wraps the start to 23:xx, after the end. |
| SettingsScreen.ToggleDay | app/src/main/java/com/example/reminder/features/drink/presentation/settings/DrinkSettingsScreen.kt:239-242 | Toggling a weekday puts it in the set iff it is selected, and leaves every other day alone. |
| SettingsScreen.CalendarDay | app/src/main/java/com/example/reminder/features/drink/presentation/settings/DrinkSettingsScreen.kt:494-497 | Each button maps to a weekday number in 1..7. |
| SettingsScreen.WeekdayButtonsAreCalendarWeek | app/src/main/java/com/example/reminder/features/drink/presentation/settings/DrinkSettingsScreen.kt:494-497 | The seven buttons run Monday to Sunday and cover the calendar numbers 1..7, each once. |
| SettingsScreen.OnGoalTextChanged | app/src/main/java/com/example/reminder/features/drink/presentation/settings/DrinkSettingsScreen.kt:203-206 | Text that is not an integer leaves the settings alone; an integer becomes the goal. |
| SettingsScreen.OnIntervalTextChanged | app/src/main/java/com/example/reminder/features/drink/presentation/settings/DrinkSettingsScreen.kt:221-224 | Text that is not an integer leaves the settings alone; an integer becomes the interval. |
| SettingsScreen.TypedNumbersAreAccepted | app/src/main/java/com/example/reminder/features/drink/presentation/settings/DrinkSettingsScreen.kt:203-224 | Any `Int`, typed as its decimal text, becomes the goal or the interval. |
| DrinkRecord.DateKey | app/src/main/java/com/example/reminder/features/drink/data/database/DrinkRecord.kt:16-19 | The date key is the year, then six characters, and starts with the year's digits. |
| DrinkRecord.DateKeyFields | app/src/main/java/com/example/reminder/features/drink/data/database/DrinkRecord.kt:18 | The key's month field reads as the 1-based month (1..12), and its day field reads as the day of the month. |
| DrinkRecord.TwoDigitValue | app/src/main/java/com/example/reminder/features/drink/data/database/DrinkRecord.kt:18 | `%02d` of a value below 100 is all digits and reads back as the value. |
| DrinkRecord.MonthDayOrder | app/src/main/java/com/example/reminder/features/drink/data/database/DrinkRecord.kt:18 | The `MM-dd` parts of keys compare like the (month, day) pairs. |
| DrinkRecord.DateKeyOrder | app/src/main/java/com/example/reminder/features/drink/data/database/DrinkRecord.kt:18 | For four-digit years, keys compare like the dates, and equal keys mean equal dates. |
| DrinkRecordDao.TotalAmountByDateSpec | app/src/main/java/com/example/reminder/features/drink/data/database/DrinkRecordDao.kt:12-13 | The SUM is NULL iff no row has that date; otherwise it is the day's sum modulo 2^32, and exactly the sum when that fits. |
| DrinkRecordDao.RecordsByDateSpec | app/src/main/java/com/example/reminder/features/drink/data/database/DrinkRecordDao.kt:18-19 | The day's rows are exactly the rows with that date, each as often as stored, newest first. |
| DrinkRecordDao.DayRows | app/src/main/java/com/example/reminder/features/drink/data/database/DrinkRecordDao.kt:24-43 | One `DayStats` per date, carrying that date's total. |
| DrinkRecordDao.DateDescIsTotalPreorder | app/src/main/java/com/example/reminder/features/drink/data/database/DrinkRecordDao.kt:24-28 | `ORDER BY date DESC` is a total preorder. |
| DrinkRecordDao.AllDayStatsRows | app/src/main/java/com/example/reminder/features/drink/data/database/DrinkRecordDao.kt:24-28 | Each grouped row is a date that has records, with that date's total. |
| DrinkRecordDao.AllDayStatsCoverDays | app/src/main/java/com/example/reminder/features/drink/data/database/DrinkRecordDao.kt:24-28 | Every date that has records gets a row. |
| DrinkRecordDao.AllDayStatsDistinctDates | app/src/main/java/com/example/reminder/features/drink/data/database/DrinkRecordDao.kt:24-28 | No date gets two rows (`GROUP BY date`). |
| DrinkRecordDao.AllDayStatsSorted | app/src/main/java/com/example/reminder/features/drink/data/database/DrinkRecordDao.kt:24-28 | Rows run newest date first (`ORDER BY date DESC`). |
| DrinkRecordDao.DayStatsLimitRows | app/src/main/java/com/example/reminder/features/drink/data/database/DrinkRecordDao.kt:24-28 | At most `limit` rows, each a date with records and its total. |
| DrinkRecordDao.DayStatsLimitOrder | app/src/main/java/com/example/reminder/features/drink/data/database/DrinkRecordDao.kt:24-28 | The rows run strictly newest date first. |
| DrinkRecordDao.DayStatsLimitKeepsLatest | app/src/main/java/com/example/reminder/features/drink/data/database/DrinkRecordDao.kt:24-28 | A record's date is either listed, or the limit is full of dates at least as late. |
| DrinkRecordDao.Last7DaysStats | app/src/main/java/com/example/reminder/features/drink/data/database/DrinkRecordDao.kt:27-28 | `getLast7DaysStats` is the grouped query limited to 7 rows. |
| DrinkRecordDao.Last30DaysStats | app/src/main/java/com/example/reminder/features/drink/data/database/DrinkRecordDao.kt:24-25 | `getLast30DaysStats` is the grouped query limited to 30 rows. |
| DrinkRecordDao.Last7IsPrefixOfLast30 | app/src/main/java/com/example/reminder/features/drink/data/database/DrinkRecordDao.kt:24-28 | The 7-day rows are the first 7 of the 30-day rows. |
| DrinkRecordDao.DrinkRecordDao.constructor | app/src/main/java/com/example/reminder/features/drink/data/database/DrinkRecordDao.kt:7 | The table starts empty with next key 1. |
| DrinkRecordDao.DrinkRecordDao.InsertDrinkRecord | app/src/main/java/com/example/reminder/features/drink/data/database/DrinkRecordDao.kt:9-10 | A key of 0 takes the next key; a key that is already used is refused; any other key is stored as given and moves the next key past it; keys stay unique. |
| DrinkRecordDao.DrinkRecordDao.DeleteRecord | app/src/main/java/com/example/reminder/features/drink/data/database/DrinkRecordDao.kt:33-34 | `@Delete` removes the row with that primary key and keeps the rest. |
| DrinkRecordDao.DrinkRecordDao.DeleteRecordsByDate | app/src/main/java/com/example/reminder/features/drink/data/database/DrinkRecordDao.kt:36-37 | Removes every row of that date and keeps the rest. |
| DrinkRecordDao.DeleteRecordSpec | app/src/main/java/com/example/reminder/features/drink/data/database/DrinkRecordDao.kt:33-34 | After the delete no row has that key, and every other row keeps its count. |
| DrinkRecordDao.DeleteByDateSpec | app/src/main/java/com/example/reminder/features/drink/data/database/DrinkRecordDao.kt:36-37 | After the delete no row has that date, every other row keeps its count, and that day's SUM is NULL. |
| DrinkRecordDao.DaySumAppend | app/src/main/java/com/example/reminder/features/drink/data/database/DrinkRecordDao.kt:9-13 | Appending a row adds its amount to its day's sum. |
| DrinkRecordDao.AppendedRowAddsToDayTotal | app/src/main/java/com/example/reminder/features/drink/data/database/DrinkRecordDao.kt:9-13 | After inserting a row its day's SUM is the old total (0 for none) plus the amount, modulo 2^32. |
| DrinkRecordRepository.DrinkRecordRepository.constructor | app/src/main/java/com/example/reminder/features/drink/data/repository/DrinkRecordRepository.kt:12 | The repository works on its DAO. |
| DrinkRecordRepository.DrinkRecordRepository.AddDrinkRecord | app/src/main/java/com/example/reminder/features/drink/data/repository/DrinkRecordRepository.kt:14-17 | `addDrinkRecord` appends one row with the amount, the current time, today's key and the next key, and advances the next key by one. |
| DrinkRecordRepository.DrinkRecordRepository.GetTodayTotalAmount | app/src/main/java/com/example/reminder/features/drink/data/repository/DrinkRecordRepository.kt:19-22 | Today's SUM, with 0 for a day without rows. |
| DrinkRecordRepository.DrinkRecordRepository.GetTodayRecords | app/src/main/java/com/example/reminder/features/drink/data/repository/DrinkRecordRepository.kt:29-32 | Today's rows, newest first. |
| DrinkRecordRepository.DrinkRecordRepository.GetLast7DaysStats | app/src/main/java/com/example/reminder/features/drink/data/repository/DrinkRecordRepository.kt:39-41 | Passes the 7-day query through. |
| DrinkRecordRepository.DrinkRecordRepository.GetLast30DaysStats | app/src/main/java/com/example/reminder/features/drink/data/repository/DrinkRecordRepository.kt:43-45 | Passes the 30-day query through. |
| DrinkRecordRepository.DrinkRecordRepository.DeleteRecord | app/src/main/java/com/example/reminder/features/drink/data/repository/DrinkRecordRepository.kt:51-53 | Passes the delete through; keys stay unique and the next key is unchanged. |
| DrinkRecordRepository.LoggedDrinkCountsToday | app/src/main/java/com/example/reminder/features/drink/data/repository/DrinkRecordRepository.kt:14-58 | A drink logged today raises today's total by its amount, because logging and reading use the same key format. |
| Statistics.PeriodOf | app/src/main/java/com/example/reminder/features/statistics/presentation/DrinkStatisticsScreen.kt:42-46 | Only the "30天" chip selects the 30-day query; every other chip selects 7 days. |
| Statistics.PeriodStats | app/src/main/java/com/example/reminder/features/statistics/presentation/DrinkStatisticsScreen.kt:42-46 | Each period reads its query. |
| Statistics.PeriodStatsNest | app/src/main/java/com/example/reminder/features/statistics/presentation/DrinkStatisticsScreen.kt:42-46 | The week's rows are the first seven of the month's rows. |
| Statistics.DetailsCompletedDays | app/src/main/java/com/example/reminder/features/statistics/presentation/DrinkStatisticsScreen.kt:219-223 | There are no details for empty data; completed days never exceed the day count, equal it iff every day reaches the goal, and are 0 iff none does. |
| Statistics.DetailsAverageBounds | app/src/main/java/com/example/reminder/features/statistics/presentation/DrinkStatisticsScreen.kt:221-222 | When the sum fits an `Int`, the total is the sum and the average is the floor of the mean, lying between the smallest and largest day bounds. |
| Statistics.MaxTotal | app/src/main/java/com/example/reminder/features/statistics/presentation/DrinkStatisticsScreen.kt:347 | `maxOfOrNull`: null only for no days, otherwise the greatest day total, attained by some day. |
| Statistics.ChartMaxValue | app/src/main/java/com/example/reminder/features/statistics/presentation/DrinkStatisticsScreen.kt:338-347 | The chart scale is at least the goal and every day total, and is the goal or one of the totals. |
| Notifications.NotificationManager.constructor | app/src/main/java/com/example/reminder/ReminderService.kt:95 | No notification is on show at first. |
| Notifications.NotificationManager.Notify | app/src/main/java/com/example/reminder/ReminderService.kt:116 | Posting an id puts it on show. |
| Notifications.NotificationManager.Cancel | app/src/main/java/com/example/reminder/DrinkActivity.kt:132-138 | Cancelling an id takes it off show. |
| PreferenceHelper.WorkMinutesOf | app/src/main/java/com/example/reminder/PreferenceHelper.kt:16-19 | Work minutes default to 30 when unset, and are the stored value otherwise. |
| PreferenceHelper.RestMinutesOf | app/src/main/java/com/example/reminder/PreferenceHelper.kt:21-24 | Rest minutes default to 5 when unset, and are the stored value otherwise. |
| PreferenceHelper.SaveTimesTo | app/src/main/java/com/example/reminder/PreferenceHelper.kt:8-14 | `saveTimes` writes both keys and leaves every other key alone. |
| PreferenceHelper.SaveTimesReadBack | app/src/main/java/com/example/reminder/PreferenceHelper.kt:8-24 | After `saveTimes(w, r)`, the work minutes read `w` and the rest minutes read `r`, negative and zero values included. |
| PreferenceHelper.SaveTimesOverwrites | app/src/main/java/com/example/reminder/PreferenceHelper.kt:8-14 | A second save replaces the first entirely. |
| PreferenceHelper.PreferenceHelper.constructor | app/src/main/java/com/example/reminder/PreferenceHelper.kt:3-6 | The helper works on its preferences file. |
| PreferenceHelper.PreferenceHelper.SaveTimes | app/src/main/java/com/example/reminder/PreferenceHelper.kt:8-14 | `saveTimes` updates the file, after which both values read back. |
| PreferenceHelper.PreferenceHelper.GetWorkMinutes | app/src/main/java/com/example/reminder/PreferenceHelper.kt:16-19 | `getWorkMinutes` reads the file with default 30. |
| PreferenceHelper.PreferenceHelper.GetRestMinutes | app/src/main/java/com/example/reminder/PreferenceHelper.kt:21-24 | `getRestMinutes` reads the file with default 5. |
| ReminderService.StartDelay | app/src/main/java/com/example/reminder/ReminderService.kt:65-66 | The work delay is `workMinutes*60*1000`, exact and a non-negative multiple of 5000 for 0..35791394 minutes, and always a multiple of 1000. |
| ReminderService.StartDelayWraps | app/src/main/java/com/example/reminder/ReminderService.kt:66 | Beyond that the `Int` product wraps: 35791395 minutes gives a negative delay, and 71582789 minutes gives 44000 ms, which is not a multiple of 5000. |
| ReminderService.TicksCountDown | app/src/main/java/com/example/reminder/ReminderService.kt:78-84 | From `k` periods of 5000 ms the log callback counts down one period per run, stops at 0, and re-posts itself exactly `k` times. |
| ReminderService.LogKeepsRemainingInvariant | app/src/main/java/com/example/reminder/ReminderService.kt:79-82 | A log run keeps the remaining time's invariant: it never grows, never changes from a non-positive start, stays above -5000, and a non-negative multiple of 5000 stays one. |
| ReminderService.Removed | app/src/main/java/com/example/reminder/ReminderService.kt:63 | `removeCallbacks(r)` drops every pending post of `r` and keeps every other message. |
| ReminderService.RemovedNoRepeats | app/src/main/java/com/example/reminder/ReminderService.kt:63 | Removing callbacks never creates a duplicate pending message. |
| ReminderService.PendingCallbacksAreSingle | app/src/main/java/com/example/reminder/ReminderService.kt:61-91 | While every pending message is a post of the current work or log runnable, at most one work and one log callback are pending. |
| ReminderService.ReminderService.constructor | app/src/main/java/com/example/reminder/ReminderService.kt:15-19 | A new service has nothing pending, no runnables, 0 ms remaining, and is not resting. |
| ReminderService.ReminderService.OnStartCommand | app/src/main/java/com/example/reminder/ReminderService.kt:38-59 | The foreground notification (id 1) is always posted; only `ACTION_START_TIMER` and `ACTION_RESTART_WORK` restart the timer, and any other action, or none, changes nothing else. |
| ReminderService.ReminderService.StartWorkTimer | app/src/main/java/com/example/reminder/ReminderService.kt:61-74 | After a restart exactly one fresh work callback and one fresh log callback are pending, the remaining time is the full delay, and the service is not resting. |
| ReminderService.ReminderService.StartWorkLog | app/src/main/java/com/example/reminder/ReminderService.kt:76-87 | A new log runnable is created and posted at once. |
| ReminderService.ReminderService.StopWorkLog | app/src/main/java/com/example/reminder/ReminderService.kt:89-91 | Only the current log runnable's posts are removed; pending work callbacks stay. |
| ReminderService.ReminderService.RunMessage | app/src/main/java/com/example/reminder/ReminderService.kt:69-122 | The work callback sends the rest notification (id 2), rests, and leaves nothing pending. A log run counts 5000 ms down and re-posts only while working with time left. Neither kind of run creates or replaces a runnable, and the pending-message invariant holds throughout. |
| ReminderService.ReminderService.SendRestNotification | app/src/main/java/com/example/reminder/ReminderService.kt:93-122 | Posts notification 2, sets resting, and stops the log; the work timer is not re-armed. |
| ReminderService.ReminderService.OnDestroy | app/src/main/java/com/example/reminder/ReminderService.kt:31-36 | `onDestroy` leaves no work or log callback pending. |
| Countdown.CountdownFinishesAtZero | app/src/main/java/com/example/reminder/RestActivity.kt:55-62 | From a non-negative start the counter drops by one per run, never below 0, and `onFinish` is first called on run `start + 1`, once it has reached 0. |
| Countdown.NonPositiveStartFinishesAtOnce | app/src/main/java/com/example/reminder/RestActivity.kt:55-62 | A start of 0 or less finishes on the first run. |
| RestActivity.RestSeconds | app/src/main/java/com/example/reminder/RestActivity.kt:21-22 | The countdown starts at `restMinutes * 60` seconds, exact up to 35791394 minutes and modulo 2^32 beyond. |
| RestActivity.DisplaySplit | app/src/main/java/com/example/reminder/RestActivity.kt:80 | The minutes and seconds shown add back up to the remaining time, with the seconds in [0, 60) for a non-negative remaining time. |
| RestActivity.DisplaySplitInjective | app/src/main/java/com/example/reminder/RestActivity.kt:80 | Different remaining times show different clocks. |
| RestActivity.RestActivity.constructor | app/src/main/java/com/example/reminder/RestActivity.kt:19-22 | The countdown starts at the rest duration in seconds. |
| RestActivity.RestActivity.RunEffect | app/src/main/java/com/example/reminder/RestActivity.kt:55-62 | One effect run decrements while the counter is positive and otherwise finishes; the counter stays where the countdown leads and never goes negative from a non-negative start. |
| RestActivity.RestActivity.Postpone | app/src/main/java/com/example/reminder/RestActivity.kt:28-37 | Postpone sends `ACTION_RESTART_WORK`, which restarts the service's work timer, and then finishes. |
| RestActivity.RestActivity.OnFinish | app/src/main/java/com/example/reminder/RestActivity.kt:38 | `onFinish` only finishes; the service is untouched. |
| DrinkActivity.ActualTodayDrink | app/src/main/java/com/example/reminder/DrinkActivity.kt:159 | A null total for today is shown as 0. |
| DrinkActivity.ActualTodayDrinkIsDaySum | app/src/main/java/com/example/reminder/DrinkActivity.kt:155-159 | The amount shown is 0 when nothing was logged today, and today's sum otherwise (when it fits an `Int`). |
| DrinkActivity.ButtonAmount | app/src/main/java/com/example/reminder/DrinkActivity.kt:253-290 | The first row shows `take(2)` and the second `drop(2)` of the amounts 50, 100, 200, 300 ml. |
| DrinkActivity.ButtonsOfferEachAmountOnce | app/src/main/java/com/example/reminder/DrinkActivity.kt:253-290 | Each offered amount is on exactly one of the four buttons. |
| DrinkActivity.DrinkActivity.constructor | app/src/main/java/com/example/reminder/DrinkActivity.kt:148 | The popup countdown starts at 15. |
| DrinkActivity.DrinkActivity.RunEffect | app/src/main/java/com/example/reminder/DrinkActivity.kt:163-170 | One effect run decrements while the counter is positive; the popup closes on run 16, cancelling notifications 3 and 2. |
| DrinkActivity.DrinkActivity.ClearNotifications | app/src/main/java/com/example/reminder/DrinkActivity.kt:132-138 | Notifications 3 and 2 are cancelled. |
| DrinkActivity.DrinkActivity.OnDrink | app/src/main/java/com/example/reminder/DrinkActivity.kt:68-130 | A drink is logged for today under the next key (which advances by one); notifications 3 and 2 are cancelled; the service receives the record action, which only re-posts notification 1 and leaves the timer alone; then the popup closes, with the countdown untouched. |
| DrinkActivity.DrinkActivity.OnAmountButton | app/src/main/java/com/example/reminder/DrinkActivity.kt:253-290 | A tap on a button logs that button's amount, one of 50, 100, 200 or 300 ml, exactly as `onDrink` does. |
| DrinkActivity.DrinkActivity.OnSkip | app/src/main/java/com/example/reminder/DrinkActivity.kt:72-76 | Skipping cancels notifications 3 and 2 and closes the popup; nothing is logged. |
| DrinkActivity.DrinkActivity.OnFinish | app/src/main/java/com/example/reminder/DrinkActivity.kt:77-81 | The end of the countdown behaves like skipping. |
| DrinkActivity.DrinkActivity.OnBackPressed | app/src/main/java/com/example/reminder/DrinkActivity.kt:107-110 | Back press changes nothing. |

## Left out

- Compose rendering, dialogs and navigation are not modelled; this includes `MainActivity.kt`, `WhitelistScreen.kt` and `HomeScreen.kt`. The settings screen lambdas read a snapshot of the settings; the model takes that snapshot to be the current settings.
- Floating-point progress bars, the completion-rate percentage and the chart geometry are not modelled, because they are floating-point UI numerics.
- Platform calls are not modelled, because they are foreign. This covers `UsageStatsManager` and `AppOpsManager`, `PackageManager` lookups, notification channels, `startForeground`, window and keyguard flags, and intents. Their results are inputs. A lookup exception in `getInstalledApps` appears as an unresolved (`None`) entry.
- The outer `try/catch` of `getCurrentForegroundApp` is only modelled through `None` query results. The service lookup itself is not modelled.
- The Room singleton, `Flow` live queries and `MutableStateFlow` caches are library machinery and are not modelled. Preference files are in-memory maps.
- `HomeViewModel.kt` is not modelled, because its timer methods are empty stubs.
- The windowed drink scheduler and whitelist-driven popup suppression are not modelled, because the shown code contains neither.
- DrinkRecordDao.RecordsByDateSpec: rows with equal time stamps come out in insertion order, because SQL leaves their order open.
- DrinkRecordDao.TotalAmountByDateSpec: the 64-bit SQL sum is not bounded. Only its narrowing to `Int` on read is modelled.
- Prefs.GetInt: a key holding a value of another type returns the default here. On Android it throws `ClassCastException`.
- Prefs.GetBool: a key holding a value of another type returns the default here. On Android `getBoolean` throws `ClassCastException`.
- Prefs.GetString: a key holding a value of another type returns the default here. On Android `getString` throws `ClassCastException`.
- Prefs.GetStringSet: a key holding a value of another type returns the default here. On Android `getStringSet` throws `ClassCastException`.
- DrinkRecord.DateKey: `String.format("%02d", …)` and `Calendar` use the device's default locale. The model assumes ASCII digits and the Gregorian calendar, as on an English-locale device.
- Text.ParseInt: only ASCII digits after an optional `+` or `-` sign are accepted. Kotlin's `toIntOrNull` also accepts other Unicode decimal digits, which the model rejects.
- Text.LexLeTotal: strings are compared by code point, not by UTF-16 unit. The two orders differ only outside the Basic Multilingual Plane.
- ReminderService.RemainingInvariant: the remaining time stays a non-negative multiple of 5000 only when the start delay is one, that is for 0 to 35791394 work minutes. Beyond that the `Int` product wraps (`StartDelayWraps`), and a run can leave the count between -5000 and 0.
- ReminderService.ReminderService.RunMessage: the `Handler`'s timing order is not modelled, so any pending message may run. Every property proved holds for every order.
- RestActivity.RestActivity.RunEffect: the counter never goes negative only when the rest duration is not negative. `saveTimes` does not validate, and a negative duration finishes on the first run.
- `Long` overflow of time arithmetic (`now - lastTimeUsed` and similar) is not modelled, because integers here are unbounded.
