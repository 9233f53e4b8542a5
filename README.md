# Focus Launcher: quote cache, overlay slots, hidden apps and drawer grouping

A Dafny model of the state and data logic at the core of the Focus Launcher
Android home screen:

- **Quote cache** (`QuotesRepo`, modules `QuoteStore`, `SeedData`, `Quotes`).
  The repository keeps a table of quotes keyed by `_id`. On the first request
  against an empty table it seeds the table from nine bundled quotes. It then
  publishes a random stored quote on the current-quote flow, or `None` when
  the table is empty. `fetchQuotes` refills the table from pages 1 and 2 of
  the remote quote service, with the is-fetching flag raised for the
  duration. `hasQuotesReachedLimit` compares the table size with
  `QUOTES_LIMIT`.
- **Overlay slots** (`LauncherViewManager`, module `ViewManager`). The sheet
  slot is filled at once by `showBottomSheet`. It is cleared only when the
  hide job launched by `hideBottomSheet` completes. The dialog slot is set
  and cleared synchronously.
- **Hidden apps** (`HiddenAppsRepo`, module `HiddenApps`). The hidden list is
  joined with the apps table, and hiding, un-hiding and clearing are handed
  to the hidden-apps table.
- **App drawer grouping** (the `groupBy` in `AppsList`, module `AppDrawer`).
  Each app goes under the upper-cased first letter of its name, or under
  `'#'` when that character is not a letter. Group headers appear only when
  the setting is on and there is more than one group.

Stateful parts are classes whose methods change their fields (`modifies`)
and state the whole new state. Pure parts are functions with a reference
description and lemmas linking the two. Coroutines are sequential calls
here. The remote service is a parameter `api: int -> PageResponse`. The
random draw is a nondeterministic choice. Animation jobs finish through
explicit completion steps (`CompleteShow`, `CompleteHide`).

Assumptions about code that is not part of this model:

- `QuotesDao.addQuotes` upserts by `_id`, record by record in list order
  (`QuoteStore.Upsert`).
- `HiddenAppsDao` keys rows by package name. Hiding a hidden package changes
  nothing, a new one is appended, un-hiding deletes that row, and clearing
  deletes all rows.
- `isAlphabet` is the ASCII-letter test.
- The `Quote` entity and `QuoteResponse.toQuote` carry `_id`, `content`,
  `author` and `tags` unchanged.
- The value of `QUOTES_LIMIT` (in `Constants`) is a constructor parameter.

The model follows the code as written, including two behaviours a reader
might not expect:

- `fetchQuotes` has no guard against a refill already in progress, and no
  `finally`. A failed page ends the call with the flag still raised
  (`FetchQuotes`).
- A hide completion clears the sheet payload without checking whether a newer
  `showBottomSheet` has replaced it (`CompleteHide`,
  `StaleHideClearsNewerSheet`).

## Model

| member | source | states |
|---|---|---|
| `QuoteStore.Upsert` | app/src/main/java/dev/mslalith/focuslauncher/data/respository/QuotesRepo.kt:60 | the assumed `addQuotes`: no stored id is lost, and every id of the batch is stored afterwards |
| `QuoteStore.UpsertKeys` | app/src/main/java/dev/mslalith/focuslauncher/data/respository/QuotesRepo.kt:60 | after `addQuotes(batch)` the table's ids are exactly the old ids plus the batch's ids |
| `QuoteStore.UpsertKeepsKeyedById` | app/src/main/java/dev/mslalith/focuslauncher/data/respository/QuotesRepo.kt:60 | adding a batch keeps every record filed under its own `_id` (no two records share an id) |
| `QuoteStore.UpsertValues` | app/src/main/java/dev/mslalith/focuslauncher/data/respository/QuotesRepo.kt:60 | every record after an add was already stored or comes from the batch |
| `QuoteStore.UpsertIsOverride` | app/src/main/java/dev/mslalith/focuslauncher/data/respository/QuotesRepo.kt:60 | adding a batch equals overriding the old table with the rows the batch alone produces |
| `QuoteStore.UpsertConcat` | app/src/main/java/dev/mslalith/focuslauncher/data/respository/QuotesRepo.kt:60 | adding two batches one after the other equals adding their concatenation |
| `QuoteStore.UpsertIdempotent` | app/src/main/java/dev/mslalith/focuslauncher/data/respository/QuotesRepo.kt:60 | adding the same batch a second time changes nothing |
| `QuoteStore.UpsertLastWins` | app/src/main/java/dev/mslalith/focuslauncher/data/respository/QuotesRepo.kt:60 | the last record of a batch is what its id maps to afterwards |
| `QuoteStore.UpsertOverwriteKeepsSize` | app/src/main/java/dev/mslalith/focuslauncher/data/respository/QuotesRepo.kt:60 | re-adding an id already present replaces the record and leaves the table size unchanged |
| `QuoteStore.UpsertGrows` | app/src/main/java/dev/mslalith/focuslauncher/data/respository/QuotesRepo.kt:60 | adding a batch never shrinks the table |
| `QuoteStore.UpsertNonEmpty` | app/src/main/java/dev/mslalith/focuslauncher/data/respository/QuotesRepo.kt:60 | a non-empty batch leaves the table non-empty (what ends the seeding recursion) |
| `QuoteStore.UpsertFreshSize` | app/src/main/java/dev/mslalith/focuslauncher/data/respository/QuotesRepo.kt:60 | a batch of pairwise distinct new ids grows the table by exactly its length |
| `SeedData.SeedQuotes` | app/src/main/java/dev/mslalith/focuslauncher/data/respository/QuotesRepo.kt:66-141 | the bundled list has nine records with pairwise distinct `_id`s |
| `Quotes.SeedingEmptyTable` | app/src/main/java/dev/mslalith/focuslauncher/data/respository/QuotesRepo.kt:52-56 | seeding an empty table with distinct ids stores exactly that many records, each keyed by its id and taken from the batch |
| `Quotes.BundledSeeding` | app/src/main/java/dev/mslalith/focuslauncher/data/respository/QuotesRepo.kt:52-141 | seeding an empty table with the bundled list leaves exactly nine quotes |
| `Quotes.ReachedLimit` | app/src/main/java/dev/mslalith/focuslauncher/data/respository/QuotesRepo.kt:62 | the limit test: the table size is at least the limit (no `ensures`; its monotonicity is `LimitStaysReached`) |
| `Quotes.LimitStaysReached` | app/src/main/java/dev/mslalith/focuslauncher/data/respository/QuotesRepo.kt:62 | once the table has reached the limit, adding any batch keeps it reached (the limit test is monotone in table size) |
| `Quotes.QuotesRepo.constructor` | app/src/main/java/dev/mslalith/focuslauncher/data/respository/QuotesRepo.kt:17-25 | a new repository publishes `None` and is not fetching; the table is the injected one |
| `Quotes.QuotesRepo.NextRandomQuote` | app/src/main/java/dev/mslalith/focuslauncher/data/respository/QuotesRepo.kt:28-36 | outcome is `Success(q)` with `q` stored iff the table is non-empty at draw time; a non-empty table is not modified and one quote is published; an empty table is seeded once with the bundled quotes (nine records), then the nested draw and the outer draw publish two `Success` outcomes, each carrying a bundled quote; the flag is untouched |
| `Quotes.QuotesRepo.AddInitialQuotes` | app/src/main/java/dev/mslalith/focuslauncher/data/respository/QuotesRepo.kt:52-58 | hands the bundled list to the table, then the nested draw finds a non-empty table, so it publishes `Success` of a stored quote without seeding again; on an empty table that quote is a bundled one |
| `Quotes.QuotesRepo.AddAllQuotes` | app/src/main/java/dev/mslalith/focuslauncher/data/respository/QuotesRepo.kt:60 | the table becomes the upsert of the batch; the two flows are untouched |
| `Quotes.QuotesRepo.FetchPageQuotes` | app/src/main/java/dev/mslalith/focuslauncher/data/respository/QuotesRepo.kt:46-50 | a page that arrives is added to the table; a failed call changes nothing and is reported |
| `Quotes.QuotesRepo.FetchQuotes` | app/src/main/java/dev/mslalith/focuslauncher/data/respository/QuotesRepo.kt:38-44 | on success: flag raised, page 1 added, then page 2 added, then flag lowered, in that order; on a failed page the flag stays raised and only earlier pages are stored; the current quote never changes |
| `Quotes.QuotesRepo.HasQuotesReachedLimit` | app/src/main/java/dev/mslalith/focuslauncher/data/respository/QuotesRepo.kt:62-63 | true iff the table holds at least `QUOTES_LIMIT` quotes |
| `ViewManager.LauncherViewManager.constructor` | app/src/main/java/dev/mslalith/focuslauncher/data/managers/LauncherViewManager.kt:18-28 | both the sheet payload and the dialog payload start null; no animation job is pending |
| `ViewManager.LauncherViewManager.IsVisible` | app/src/main/java/dev/mslalith/focuslauncher/data/managers/LauncherViewManager.kt:30-31 | the sheet surface's own visibility flag, independent of the payload (no `ensures`; `PayloadAheadOfSurface` shows the two differ) |
| `ViewManager.LauncherViewManager.IsDialogVisible` | app/src/main/java/dev/mslalith/focuslauncher/data/managers/LauncherViewManager.kt:33-34 | a dialog payload is present (no `ensures`; `ShowDialog` and `HideDialog` state its value after each call) |
| `ViewManager.LauncherViewManager.HideBottomSheet` | app/src/main/java/dev/mslalith/focuslauncher/data/managers/LauncherViewManager.kt:36-40 | launches a hide job and leaves the sheet payload, the dialog payload and the surface unchanged at call time |
| `ViewManager.LauncherViewManager.CompleteHide` | app/src/main/java/dev/mslalith/focuslauncher/data/managers/LauncherViewManager.kt:39 | a hide job's completion, normal or cancelled, clears the sheet payload unconditionally; a normal end hides the surface; the dialog is untouched |
| `ViewManager.LauncherViewManager.ShowBottomSheet` | app/src/main/java/dev/mslalith/focuslauncher/data/managers/LauncherViewManager.kt:42-45 | the sheet payload is exactly the given type immediately; an expand job is launched; dialog and surface unchanged |
| `ViewManager.LauncherViewManager.CompleteShow` | app/src/main/java/dev/mslalith/focuslauncher/data/managers/LauncherViewManager.kt:44 | an expand job that ends normally leaves the surface visible; payloads unchanged |
| `ViewManager.LauncherViewManager.HideDialog` | app/src/main/java/dev/mslalith/focuslauncher/data/managers/LauncherViewManager.kt:47-49 | the dialog payload is null and `isDialogVisible` false; every other field is unchanged, so a second call changes nothing |
| `ViewManager.LauncherViewManager.ShowDialog` | app/src/main/java/dev/mslalith/focuslauncher/data/managers/LauncherViewManager.kt:51-53 | the dialog payload is exactly the given properties and `isDialogVisible` holds; the sheet side is unchanged |
| `ViewManager.StaleHideClearsNewerSheet` | app/src/main/java/dev/mslalith/focuslauncher/data/managers/LauncherViewManager.kt:36-45 | `show(a); hide(); show(b)` followed by the first hide's completion ends with a null sheet payload |
| `ViewManager.PayloadAheadOfSurface` | app/src/main/java/dev/mslalith/focuslauncher/data/managers/LauncherViewManager.kt:30-31 | right after `showBottomSheet` on a hidden surface the payload is present while `isVisible` is false |
| `HiddenApps.HideApp` | app/src/main/java/dev/mslalith/focuslauncher/data/respository/HiddenAppsRepo.kt:21 | the assumed `hideApp`: afterwards the hidden names are the old ones plus the package, and at most one row is added |
| `HiddenApps.OnlyHiddenApps` | app/src/main/java/dev/mslalith/focuslauncher/data/respository/HiddenAppsRepo.kt:15-18 | the joined list is never longer than the hidden list |
| `HiddenApps.OnlyHiddenAppsAppend` | app/src/main/java/dev/mslalith/focuslauncher/data/respository/HiddenAppsRepo.kt:17 | the join distributes over concatenation of the hidden list, so it keeps the hidden list's order |
| `HiddenApps.OnlyHiddenAppsMembers` | app/src/main/java/dev/mslalith/focuslauncher/data/respository/HiddenAppsRepo.kt:17 | an app is in the join iff it is the apps-table entry of some hidden package name (names with no app are dropped) |
| `HiddenApps.OnlyHiddenAppsTotal` | app/src/main/java/dev/mslalith/focuslauncher/data/respository/HiddenAppsRepo.kt:17 | when every hidden package has an app, the join has the same length and its i-th element is the lookup of the i-th hidden name |
| `HiddenApps.UnhideApp` | app/src/main/java/dev/mslalith/focuslauncher/data/respository/HiddenAppsRepo.kt:25 | un-hiding never lengthens the hidden list |
| `HiddenApps.UnhideAppMembers` | app/src/main/java/dev/mslalith/focuslauncher/data/respository/HiddenAppsRepo.kt:25 | after un-hiding `p` a name is hidden iff it was hidden before and is not `p` |
| `HiddenApps.UnhideAppAppend` | app/src/main/java/dev/mslalith/focuslauncher/data/respository/HiddenAppsRepo.kt:25 | un-hiding works row by row: it distributes over concatenation |
| `HiddenApps.UnhideAfterHide` | app/src/main/java/dev/mslalith/focuslauncher/data/respository/HiddenAppsRepo.kt:20-26 | un-hiding a package undoes hiding it |
| `HiddenApps.UnhideAbsent` | app/src/main/java/dev/mslalith/focuslauncher/data/respository/HiddenAppsRepo.kt:24-26 | un-hiding a package that is not hidden changes nothing |
| `HiddenApps.UnhideKeepsNoDuplicates` | app/src/main/java/dev/mslalith/focuslauncher/data/respository/HiddenAppsRepo.kt:24-26 | un-hiding keeps package names unique in the hidden table |
| `HiddenApps.UnhideHiddenLength` | app/src/main/java/dev/mslalith/focuslauncher/data/respository/HiddenAppsRepo.kt:24-26 | with unique names, un-hiding a hidden package removes exactly one row |
| `HiddenApps.HideKeepsNoDuplicates` | app/src/main/java/dev/mslalith/focuslauncher/data/respository/HiddenAppsRepo.kt:20-22 | hiding keeps package names unique and leaves the package hidden |
| `HiddenApps.HiddenAppIsListed` | app/src/main/java/dev/mslalith/focuslauncher/data/respository/HiddenAppsRepo.kt:15-22 | after hiding an app present in the apps table, the join lists it |
| `HiddenApps.UnhiddenAppIsNotListed` | app/src/main/java/dev/mslalith/focuslauncher/data/respository/HiddenAppsRepo.kt:15-26 | after un-hiding a package, no app with that package name is in the join |
| `HiddenApps.HiddenAppsRepo.constructor` | app/src/main/java/dev/mslalith/focuslauncher/data/respository/HiddenAppsRepo.kt:11-14 | the repository works on the injected hidden-apps and apps tables |
| `HiddenApps.HiddenAppsRepo.OnlyHiddenAppsFlow` | app/src/main/java/dev/mslalith/focuslauncher/data/respository/HiddenAppsRepo.kt:15-18 | the flow's value is no longer than the hidden list and holds only lookups of hidden names |
| `HiddenApps.HiddenAppsRepo.AddToHiddenApps` | app/src/main/java/dev/mslalith/focuslauncher/data/respository/HiddenAppsRepo.kt:20-22 | the hidden table receives exactly `app.packageName`, which is hidden afterwards; the list grows by one row unless the package was already hidden; names stay unique; the apps table is untouched |
| `HiddenApps.HiddenAppsRepo.RemoveFromHiddenApps` | app/src/main/java/dev/mslalith/focuslauncher/data/respository/HiddenAppsRepo.kt:24-26 | the hidden table receives exactly the given name, which is not hidden afterwards; the list shrinks by exactly one row if it was hidden and is unchanged otherwise; names stay unique; the apps table is untouched |
| `HiddenApps.HiddenAppsRepo.ClearHiddenApps` | app/src/main/java/dev/mslalith/focuslauncher/data/respository/HiddenAppsRepo.kt:28 | the hidden table is empty and so is the joined list |
| `HiddenApps.HiddenAppsRepo.IsHidden` | app/src/main/java/dev/mslalith/focuslauncher/data/respository/HiddenAppsRepo.kt:30 | true iff the hidden table has a row for the package name |
| `AppDrawer.UppercaseChar` | app/src/main/java/dev/mslalith/focuslauncher/ui/screens/pages/AppDrawerPage.kt:236 | an upper-cased letter is an upper-case ASCII letter, the same letter as the input |
| `AppDrawer.GroupKey` | app/src/main/java/dev/mslalith/focuslauncher/ui/screens/pages/AppDrawerPage.kt:235-237 | the key is `'#'` iff the first character is not a letter, and otherwise that letter in upper case; so every key is an upper-case letter or `'#'` |
| `AppDrawer.GroupBy` | app/src/main/java/dev/mslalith/focuslauncher/ui/screens/pages/AppDrawerPage.kt:233-238 | `groupBy` on the drawer list: never more groups than apps, and no groups exactly when there are no apps (its full meaning is the `GroupBy*` lemmas) |
| `AppDrawer.GroupByKeys` | app/src/main/java/dev/mslalith/focuslauncher/ui/screens/pages/AppDrawerPage.kt:233-238 | groups are iterated in first-occurrence order of their keys |
| `AppDrawer.GroupByGroupOf` | app/src/main/java/dev/mslalith/focuslauncher/ui/screens/pages/AppDrawerPage.kt:233-238 | the group for a key holds exactly the input apps with that key, in input order |
| `AppDrawer.GroupByPermutation` | app/src/main/java/dev/mslalith/focuslauncher/ui/screens/pages/AppDrawerPage.kt:233-238 | concatenating the groups gives a permutation of the input list |
| `AppDrawer.GroupByWellFiled` | app/src/main/java/dev/mslalith/focuslauncher/ui/screens/pages/AppDrawerPage.kt:233-238 | no group is empty and a group holds only input apps carrying its key |
| `AppDrawer.GroupByDistinctKeys` | app/src/main/java/dev/mslalith/focuslauncher/ui/screens/pages/AppDrawerPage.kt:233-238 | group keys never repeat and each is an upper-case letter or `'#'` |
| `AppDrawer.AppInItsGroupOnly` | app/src/main/java/dev/mslalith/focuslauncher/ui/screens/pages/AppDrawerPage.kt:233-238 | every app is in the group for its own key and in no group with another key |
| `AppDrawer.ShowAppGroupHeader` | app/src/main/java/dev/mslalith/focuslauncher/ui/screens/pages/AppDrawerPage.kt:260 | headers never show with the setting off, nor when there is exactly one group (the full rule is `HeaderVisibility`) |
| `AppDrawer.HeaderVisibility` | app/src/main/java/dev/mslalith/focuslauncher/ui/screens/pages/AppDrawerPage.kt:260 | headers are shown iff the setting is on and the apps do not all share one key (an empty list counts as not one group) |
| `AppDrawer.SingleKey` | app/src/main/java/dev/mslalith/focuslauncher/ui/screens/pages/AppDrawerPage.kt:260 | there is exactly one group key iff the key list is non-empty and constant |

## Left out

- Coroutines, dispatchers and `withContext`: every call runs to completion in order. Nothing is modelled of two refills or two animations running at the same time, beyond the explicit completion steps of the sheet jobs.
- `List.random()`: the draw is a nondeterministic choice among the stored quotes. Only membership is stated, not uniformity.
- The remote quote service, Gson parsing and `QuoteResponse.toQuote` are not part of this model. A page is a parameter that yields either a list of quotes or a transport error, and the bundled JSON appears as its parsed records. The `authorSlug` and `length` fields of the JSON are dropped because the stored quote does not need them.
- `quotesDao.getQuotes()` at the end of `fetchQuotes` (QuotesRepo.kt:42): its result is discarded, so the model has no step for it.
- The Room DAOs (`QuotesDao`, `AppsDao`, `HiddenAppsDao`) are not part of this model. Their behaviour is stated as assumptions (see above): a `map` for the quote and apps tables and a `seq` of package names for the hidden table.
- `showSnackbar` (LauncherViewManager.kt:59-73): it delegates to an extension on `ScaffoldState` that is not part of this model, so its discard and dismiss policy cannot be stated.
- Bottom-sheet animation internals: reduced to a visibility flag and counts of pending expand and hide jobs, with explicit completion steps.
- Everything drawn in AppDrawerPage.kt (layout, spacing in `Dp`, gradients, icons, keyboard, `launchApp`, search field): only the grouping key, `groupBy` and the header rule are modelled. `AppWithIcon` is reduced to the app's name and package name.
- QuotesSettingsSheet's "fetch if online" rests on the platform call `isOnline`, which is not part of this model.
- `GroupBy` requires every app name to be non-empty: `first()` on an empty name throws in the Kotlin code (AppDrawerPage.kt:236), and the model does not describe that exception.
- `GroupKey`: `isAlphabet` is taken to be the ASCII-letter test, so non-ASCII letters are filed under `'#'` here; the Kotlin function may treat them differently.
