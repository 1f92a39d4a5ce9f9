# try: match, rank and select

A model of the core of `try`, a command-line launcher that maps a free-text
query to a scratch directory. Given the history of folders it has created, it
asks a fuzzy matcher which folder names match the query, orders the hits by
score, then by how often each folder was opened, then by how recently, and
then decides:

- no history or no hit: create `<base>/<today>-<query>` and record it, opened once;
- exactly one hit: reopen it;
- several hits: offer the top three plus "Create new: <query>"; without a
  terminal the first hit is taken; with one, the user picks an option or
  cancels, and cancelling exits with status 1.

Reopening a folder adds one to its opening count and stamps it with the
current time. The process then prints one `cd` line for the shell.

Modules, following `main.go`:

- `Folders` (folders.dfy): the `TryFolder` record, reopening, the new folder's
  name and path, and `expandHomeDir`.
- `Ranking` (ranking.dfy): `fuzzySearch`, with the matcher as a function
  parameter, an in-place sort of the scored hits, and the lemmas that the
  result is the hits reordered best first.
- `Selector` (selector.dfy): `showSelector`. It builds the options and then
  either falls back to the first one or takes the user's answer.
- `FolderStore` (store.dfy): the `folders` table held in memory. It keeps a
  map from id to row and the next AUTOINCREMENT id. It has the UNIQUE
  constraint on paths and the two writes main makes.
- `Launcher` (launcher.dfy): the decision main makes (`Decide`), its effect on
  the table (`Apply`), and `Run`. `Run` is main from the moment the history has
  been read, and it is proved to do exactly `Apply` of `Decide`.

Inputs that stand for the environment:

- `find` is the fuzzy matcher (`fuzzy.Find`).
- `interactive` says whether stdin is a terminal.
- `pick` is the user's answer, a function of the number of options shown.
- `now` is the clock, in whole seconds.
- `today` is the formatted date.
- `base` is the expanded `~/try`.
- `mkdirOk` says whether creating the directory succeeded.
- `home` (for `ExpandHomeDir`) is the result of `os.UserHomeDir`.

Points where the code's behaviour is easy to misread:

- `sort.Slice` is not stable, so the order of hits tied on all three keys is
  left open.
- An empty query returns the history in the order it was read, unsorted.
- The code reads the clock three times when it creates a folder; the model
  uses one `now` for all three.

## Model

| member | source | states |
|---|---|---|
| `Folders.Reopened` | main.go:88-90 | a reopened record has one more opening and `lastOpened == now`; id, path, name, date and creation time are unchanged |
| `Folders.NewFolder` | main.go:124-142 | the new record's path is `<today>-<name>` joined under the base directory; its name is the query and its date is today; it has been opened once and was created and last opened at `now` |
| `Folders.NewFolderPathInjective` | main.go:125-127 | on one day and under one base, two queries without '/' give the same new path exactly when they are the same query |
| `Folders.ReplaceFirstWithout` | main.go:159 | `strings.Replace(s, "~", h, 1)` leaves a string without `~` unchanged |
| `Folders.ReplaceFirstReplacesFirst` | main.go:159 | in a string holding `~`, `strings.Replace(s, "~", h, 1)` replaces exactly the first `~` by `h` and keeps everything before and after it |
| `Folders.ExpandHomeDir` | main.go:153-162 | a path starting with `~/` becomes the home directory followed by the rest of the path, or the home-directory error; any other path is returned unchanged, without consulting the home directory |
| `Folders.BaseDirUnderHome` | main.go:18 | the base directory `~/try` expands to `<home>/try` |
| `Ranking.RanksAboveIsStrictWeakOrder` | main.go:251-259 | the comparator is irreflexive and transitive, and two hits are unordered by it exactly when score, opening count and last-opened time are all equal |
| `Ranking.SortedAdjacentKeys` | main.go:250-259 | in a sorted list each adjacent pair has a non-increasing score; with equal scores a non-increasing opening count; with both equal a non-increasing last-opened time |
| `Ranking.SortByRank` | main.go:250-259 | sorting the scored hits in place yields a permutation of them, sorted by the comparator |
| `Ranking.FuzzySearch` | main.go:218-267 | an empty query returns the history unchanged; otherwise the result has one entry per hit, is the hits' folders reordered, and is sorted by score, then openings, then recency; no hits gives an empty result |
| `Ranking.RankingLength` | main.go:242-248 | a ranking has exactly as many entries as the matcher reported hits |
| `Ranking.RankingIsTheHits` | main.go:242-248 | every ranked entry is `folders[hit.index]` with that hit's score, and every hit appears in the ranking |
| `Ranking.FoldersOfPermutation` | main.go:261-264 | dropping the scores of two orderings of the same scored hits leaves two orderings of the same folders |
| `Ranking.HitsAreSubMultiset` | main.go:242-248 | hits at distinct positions take each history entry at most as often as it occurs in the history |
| `Ranking.RankingIsSubMultiset` | main.go:242-264 | with distinct hit positions the search result neither invents nor duplicates a folder |
| `Ranking.TwoHitsRankByScoreThenOpenings` | main.go:251-259 | of two hits, the one with the score at least as high and more openings comes first, wherever the two sit in the history and in either order the matcher reports them |
| `Selector.Shown` | main.go:288-291 | the number of matches offered is the number of matches, capped at 3 |
| `Selector.BuildOptions` | main.go:286-309 | there are `min(n, 3) + 1` options; the first ones are the top matches in rank order, each with its folder; the last is "Create new: " followed by the query, with no folder |
| `Selector.ShowSelector` | main.go:286-355 | without a terminal the first match is taken (no folder only when there is no match at all); with one, the chosen option's folder, none for "Create new", or an abort on cancel |
| `FolderStore.UsageUpdateWritesOnlyUsage` | main.go:277-284 | the update keeps the set of ids and rewrites only `times_opened` and `last_opened` of the row with the record's id; every other row and column is unchanged |
| `FolderStore.UsageUpdatePreservesWellFormed` | main.go:277-284 | the update keeps ids in place and paths unique |
| `FolderStore.InsertPreservesWellFormed` | main.go:269-275 | inserting a row whose path is not yet recorded uses an id no row has and keeps paths unique |
| `FolderStore.FolderTable.constructor` | main.go:164-187 | a fresh table is empty and its first id is 1 |
| `FolderStore.FolderTable.UpdateFolder` | main.go:277-284 | the table after an update is the usage update of the old table, and the next id is unchanged |
| `FolderStore.FolderTable.AddFolder` | main.go:269-275 | the insertion succeeds exactly when the path is not recorded yet; it then stores the record under the next id, and otherwise leaves the table unchanged |
| `Launcher.Decide` | main.go:74-122 | a reused folder is always one of the top three matches; one match, or several without a terminal, reuses the first; abort happens exactly when there are several matches, a terminal and a cancel; create-new happens exactly when there is no history, no match, or the user picks "Create new" |
| `Launcher.FailureChangesNothing` | main.go:84-147 | an invocation that exits with status 1, cancellation included, leaves the table exactly as it was |
| `Launcher.ReuseCountsOneOpening` | main.go:88-119 | reusing prints the folder's path and sets its row's count to the ranked count plus one and its last-opened time to `now`; path, name, date, creation time and all other rows are unchanged |
| `Launcher.CreateNewAddsOneRecord` | main.go:124-150 | create-new prints `<base>/<today>-<query>` exactly when the directory was made and the path was not recorded; it then adds exactly one row under a fresh id, opened once at `now`; otherwise the table is unchanged |
| `Launcher.ApplyPreservesWellFormed` | main.go:88-147 | every outcome leaves ids consistent and paths unique |
| `Launcher.ReusedFolderIsFromHistory` | main.go:74-121 | whatever the user picks, a reused folder is an entry of the history |
| `Launcher.ReuseOfCurrentHistoryStoresReopened` | main.go:74-121 | when the history read matches the table, reusing a folder prints its path and stores exactly the reopened record, with one more opening than the table held |
| `Launcher.NoHitsCreatesNew` | main.go:230-234 | a query the matcher finds nowhere leads to create-new |
| `Launcher.Run` | main.go:74-150 | main searches the history (empty history: no search), then prints and writes exactly what `Apply` of `Decide` says, and leaves the table well formed |

## Left out

- The SQLite layer is not modelled: opening the database, the schema, the SQL text, and reading rows back. The history is an input of `Run`, so the `ORDER BY last_opened DESC, times_opened DESC` of `getAllFolders` is not modelled. Database failures other than the UNIQUE constraint on paths are not modelled either.
- The scoring inside `fuzzy.Find` is a foreign library. It is the uninterpreted parameter `find`, and only its promise that hit positions are in range is assumed. Distinct positions are assumed only by `Ranking.HitsAreSubMultiset` and `Ranking.RankingIsSubMultiset`.
- `promptui` and `isTerminal` are terminal I/O. They are the inputs `interactive` and `pick`.
- Nothing that is only printed is modelled: the stderr listing, `printFolderInfo`, colours, and `printShellIntegration`. The picker labels are built and `Selector.BuildOptions` states which label each option has; only the `%d` rendering of the opening count (`Selector.Decimal`) has no lemma.
- Argument joining, the `init` command and `os.Exit` are left out. `os.MkdirAll` of the base and of the new folder, and `os.UserHomeDir`, are effects on the machine; the model takes their results as inputs.
- Clocks and dates: `now` is an integer and `today` a given string. The RFC 3339 round trip, which drops sub-second precision, is not modelled.
- `Folders.JoinPath` does not model the lexical clean-up that `filepath.Join` applies to its result (repeated and trailing '/', and `.` and `..` elements). In the program, queries such as "foo" and "foo/" give the same path on the same day; the second then fails the UNIQUE insert and exits 1, while the model prints a `cd` and adds a second row.
- Folders.NewFolderPathInjective: stated only for queries without '/'. There the clean-up cannot make two different queries collide; with a '/' it can, as the line above shows.
- `Folders.Reopened` does not model the 64-bit wrap-around of `TimesOpened`. Go's `int` would need 2^63 openings to wrap.
- Concurrent invocations are not modelled. `Launcher.ReuseCountsOneOpening` states the lost-update behaviour for a single step: the count written is the ranked snapshot's count plus one, not the stored count plus one.
- The new `lastOpened` is at least the old one only if the clock never goes backwards. Nothing in the code ensures that, so it is not stated.
