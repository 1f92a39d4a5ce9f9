// The body of main once the history has been read: search, decide between
// reusing a folder and creating one, and write the outcome to the table.

module Launcher {
  import opened Folders
  import opened Ranking
  import opened Selector
  import opened FolderStore

  /** Where the selection protocol ends. */
  datatype Decision = Reuse(folder: TryFolder) | CreateNew | Abort

  /** Why the process exits with status 1 without printing a path. */
  datatype Failure = UserCancelled | MkdirFailed | PathExists

  /** Either the `cd` line for the shell, or exit status 1. */
  datatype Outcome = Cd(path: string) | Exit1(failure: Failure)

  /** The decision main makes from the history and its ranked matches. */
  function Decide(history: seq<TryFolder>, matches: seq<TryFolder>, interactive: bool, pick: Picker): (d: Decision)
    requires PickerInRange(pick)
    ensures d.Reuse? ==> d.folder in matches[..Shown(|matches|)]
    ensures |history| > 0 && |matches| == 1 ==> d == Reuse(matches[0])
    ensures |history| > 0 && |matches| > 0 && !interactive ==> d == Reuse(matches[0])
    ensures d.Abort? <==>
      |history| > 0 && |matches| > 1 && interactive && pick(Shown(|matches|) + 1).Cancelled?
    ensures d.CreateNew? <==>
      |history| == 0 || |matches| == 0 ||
      (|matches| > 1 && interactive && pick(Shown(|matches|) + 1) == Chose(Shown(|matches|)))
  {
    if |history| == 0 || |matches| == 0 then CreateNew
    else if |matches| == 1 then Reuse(matches[0])
    else if !interactive then Reuse(matches[0])
    else
      match pick(Shown(|matches|) + 1)
      case Cancelled => Abort
      case Chose(k) => if k < Shown(|matches|) then Reuse(matches[k]) else CreateNew
  }

  /** The table and the output after one invocation. */
  datatype Step = Step(outcome: Outcome, rows: map<int, TryFolder>, nextId: int)

  /** What carrying out a decision does to the table, and what it prints. */
  function Apply(rows: map<int, TryFolder>, nextId: int, d: Decision, query: string,
                 base: string, today: string, now: int, mkdirOk: bool): Step
  {
    match d
    case Abort => Step(Exit1(UserCancelled), rows, nextId)
    case Reuse(f) => Step(Cd(f.path), UsageUpdated(rows, Reopened(f, now)), nextId)
    case CreateNew =>
      var folder := NewFolder(base, today, query, now);
      if !mkdirOk then Step(Exit1(MkdirFailed), rows, nextId)
      else if PathTaken(rows, folder.path) then Step(Exit1(PathExists), rows, nextId)
      else Step(Cd(folder.path), Inserted(rows, nextId, folder), nextId + 1)
  }

  /** A failed invocation leaves the table as it was. */
  lemma FailureChangesNothing(rows: map<int, TryFolder>, nextId: int, d: Decision, query: string,
                              base: string, today: string, now: int, mkdirOk: bool)
    ensures Apply(rows, nextId, d, query, base, today, now, mkdirOk).outcome.Exit1? ==>
      Apply(rows, nextId, d, query, base, today, now, mkdirOk).rows == rows &&
      Apply(rows, nextId, d, query, base, today, now, mkdirOk).nextId == nextId
    ensures d.Abort? ==> Apply(rows, nextId, d, query, base, today, now, mkdirOk) == Step(Exit1(UserCancelled), rows, nextId)
  {
  }

  /** Reusing a recorded folder counts exactly one more opening (over the snapshot that was
      ranked), stamps it with `now`, prints its path, and touches no other row or column. */
  lemma ReuseCountsOneOpening(rows: map<int, TryFolder>, nextId: int, f: TryFolder, query: string,
                              base: string, today: string, now: int, mkdirOk: bool)
    requires f.id in rows
    ensures var s := Apply(rows, nextId, Reuse(f), query, base, today, now, mkdirOk);
      s.outcome == Cd(f.path) && s.nextId == nextId && s.rows.Keys == rows.Keys &&
      s.rows[f.id].timesOpened == f.timesOpened + 1 && s.rows[f.id].lastOpened == now &&
      s.rows[f.id].path == rows[f.id].path && s.rows[f.id].name == rows[f.id].name &&
      s.rows[f.id].date == rows[f.id].date && s.rows[f.id].createdAt == rows[f.id].createdAt &&
      (forall id :: id in rows && id != f.id ==> s.rows[id] == rows[id]) &&
      (rows[f.id] == f ==> s.rows[f.id] == Reopened(f, now))
  {
    UsageUpdateWritesOnlyUsage(rows, Reopened(f, now));
  }

  /** Creating a folder either fails with the table untouched, or adds exactly one row under
      a fresh id: named after the query, dated today, opened once, at `now`. */
  lemma CreateNewAddsOneRecord(rows: map<int, TryFolder>, nextId: int, query: string,
                               base: string, today: string, now: int, mkdirOk: bool)
    requires WellFormed(rows, nextId)
    ensures var s := Apply(rows, nextId, CreateNew, query, base, today, now, mkdirOk);
      var path := JoinPath(base, FolderName(today, query));
      (s.outcome.Cd? <==> mkdirOk && !PathTaken(rows, path)) &&
      (s.outcome.Cd? ==>
        s.outcome.path == path && nextId !in rows && s.rows.Keys == rows.Keys + {nextId} &&
        (forall id :: id in rows ==> s.rows[id] == rows[id]) &&
        s.rows[nextId] == TryFolder(nextId, path, query, today, now, 1, now)) &&
      (s.outcome.Exit1? ==> s.rows == rows)
  {
    var folder := NewFolder(base, today, query, now);
    if mkdirOk && !PathTaken(rows, folder.path) {
      InsertPreservesWellFormed(rows, nextId, folder);
    }
  }

  /** Every invocation leaves the table well formed. */
  lemma ApplyPreservesWellFormed(rows: map<int, TryFolder>, nextId: int, d: Decision, query: string,
                                 base: string, today: string, now: int, mkdirOk: bool)
    requires WellFormed(rows, nextId)
    ensures var s := Apply(rows, nextId, d, query, base, today, now, mkdirOk);
      WellFormed(s.rows, s.nextId)
  {
    match d
    case Abort =>
    case Reuse(f) =>
      UsageUpdatePreservesWellFormed(rows, nextId, Reopened(f, now));
    case CreateNew =>
      var folder := NewFolder(base, today, query, now);
      if mkdirOk && !PathTaken(rows, folder.path) {
        InsertPreservesWellFormed(rows, nextId, folder);
      }
  }

  /** A reused folder is always a folder of the history. */
  lemma ReusedFolderIsFromHistory(query: string, folders: seq<TryFolder>, find: Finder,
                                  matches: seq<TryFolder>, interactive: bool, pick: Picker)
    requires query != "" ==> InRange(find(query, Names(folders)), |folders|)
    requires PickerInRange(pick)
    requires SearchResult(query, folders, find, matches)
    ensures Decide(folders, matches, interactive, pick).Reuse? ==>
      Decide(folders, matches, interactive, pick).folder in folders
  {
    var d := Decide(folders, matches, interactive, pick);
    if d.Reuse? && query != "" {
      var ms := find(query, Names(folders));
      var ranked :| IsRanking(folders, ms, ranked) && matches == FoldersOf(ranked);
      var k :| 0 <= k < |matches| && matches[k] == d.folder;
      RankingIsTheHits(folders, ms, ranked);
      var j :| 0 <= j < |ms| && ranked[k] == ScoredMatch(folders[ms[j].index], ms[j].score);
    }
  }

  /** When the history read is what the table holds, reusing a folder stores exactly the
      reopened record: one more opening than before, stamped with `now`. */
  lemma ReuseOfCurrentHistoryStoresReopened(query: string, folders: seq<TryFolder>, find: Finder,
                                            matches: seq<TryFolder>, interactive: bool, pick: Picker,
                                            rows: map<int, TryFolder>, nextId: int, base: string,
                                            today: string, now: int, mkdirOk: bool)
    requires query != "" ==> InRange(find(query, Names(folders)), |folders|)
    requires PickerInRange(pick)
    requires SearchResult(query, folders, find, matches)
    requires forall f :: f in folders ==> f.id in rows && rows[f.id] == f
    requires Decide(folders, matches, interactive, pick).Reuse?
    ensures var f := Decide(folders, matches, interactive, pick).folder;
      var s := Apply(rows, nextId, Reuse(f), query, base, today, now, mkdirOk);
      s.outcome == Cd(f.path) && f.id in s.rows && s.rows[f.id] == Reopened(f, now) &&
      s.rows[f.id].timesOpened == rows[f.id].timesOpened + 1
  {
    ReusedFolderIsFromHistory(query, folders, find, matches, interactive, pick);
  }

  /** A query the matcher finds nowhere creates a new folder. */
  lemma NoHitsCreatesNew(query: string, folders: seq<TryFolder>, find: Finder,
                         matches: seq<TryFolder>, interactive: bool, pick: Picker)
    requires query != "" && InRange(find(query, Names(folders)), |folders|)
    requires find(query, Names(folders)) == []
    requires PickerInRange(pick)
    requires SearchResult(query, folders, find, matches)
    ensures Decide(folders, matches, interactive, pick) == CreateNew
  {
    var ranked :| IsRanking(folders, [], ranked) && matches == FoldersOf(ranked);
    RankingLength(folders, [], ranked);
  }

  /** main from the moment the history has been read. `matches` is what the
      search returned (empty when the history is). */
  method Run(table: FolderTable, query: string, folders: seq<TryFolder>, find: Finder,
             base: string, today: string, now: int, interactive: bool, pick: Picker, mkdirOk: bool)
    returns (outcome: Outcome, ghost matches: seq<TryFolder>)
    requires table.Valid()
    requires query != "" ==> InRange(find(query, Names(folders)), |folders|)
    requires PickerInRange(pick)
    modifies table
    ensures table.Valid()
    ensures folders == [] ==> matches == []
    ensures folders != [] ==> SearchResult(query, folders, find, matches)
    ensures Step(outcome, table.rows, table.nextId) ==
      Apply(old(table.rows), old(table.nextId), Decide(folders, matches, interactive, pick),
            query, base, today, now, mkdirOk)
  {
    matches := [];
    if |folders| > 0 {
      var found;
      ghost var ranked;
      found, ranked := FuzzySearch(query, folders, find);
      matches := found;

      if |found| > 0 {
        if |found| > 1 {
          var selection := ShowSelector(found, query, interactive, pick);
          match selection
          case Aborted =>
            return Exit1(UserCancelled), matches;
          case Selected(None) =>
            // "Create new" was chosen: fall through
          case Selected(Some(selectedFolder)) =>
            var updated := selectedFolder.(timesOpened := selectedFolder.timesOpened + 1);
            updated := updated.(lastOpened := now);
            table.UpdateFolder(updated);
            return Cd(updated.path), matches;
        } else {
          var bestMatch := found[0];
          bestMatch := bestMatch.(timesOpened := bestMatch.timesOpened + 1);
          bestMatch := bestMatch.(lastOpened := now);
          table.UpdateFolder(bestMatch);
          return Cd(bestMatch.path), matches;
        }
      }
    }

    var folderName := FolderName(today, query);
    var folderPath := JoinPath(base, folderName);
    if !mkdirOk {
      return Exit1(MkdirFailed), matches;
    }

    var folder := TryFolder(0, folderPath, query, today, now, 1, now);
    var ok := table.AddFolder(folder);
    if !ok {
      return Exit1(PathExists), matches;
    }
    outcome := Cd(folderPath);
  }
}
