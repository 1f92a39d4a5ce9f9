// The folders table, kept in memory: rows keyed by id, the id AUTOINCREMENT
// hands out next, the UNIQUE constraint on paths, and the two writes the
// launcher makes (addFolder and updateFolder).

module FolderStore {
  import opened Folders

  /** Every row is filed under its own id, below the next id to be handed out,
      and no two rows share a path. */
  ghost predicate WellFormed(rows: map<int, TryFolder>, nextId: int)
  {
    (forall id :: id in rows ==> rows[id].id == id && id < nextId) &&
    (forall a, b :: a in rows && b in rows && rows[a].path == rows[b].path ==> a == b)
  }

  /** Some row already has this path. */
  predicate PathTaken(rows: map<int, TryFolder>, path: string)
  {
    exists id :: id in rows && rows[id].path == path
  }

  /** updateFolder: SET times_opened and last_opened from `f` WHERE id = f.id;
      a missing id updates nothing. */
  function UsageUpdated(rows: map<int, TryFolder>, f: TryFolder): map<int, TryFolder>
  {
    if f.id in rows then
      rows[f.id := rows[f.id].(timesOpened := f.timesOpened, lastOpened := f.lastOpened)]
    else rows
  }

  /** addFolder: the row is stored under the next id. */
  function Inserted(rows: map<int, TryFolder>, nextId: int, f: TryFolder): map<int, TryFolder>
  {
    rows[nextId := f.(id := nextId)]
  }

  /** The update writes the two usage columns of the row with the record's id and nothing else. */
  lemma UsageUpdateWritesOnlyUsage(rows: map<int, TryFolder>, f: TryFolder)
    ensures UsageUpdated(rows, f).Keys == rows.Keys
    ensures forall id :: id in rows && id != f.id ==> UsageUpdated(rows, f)[id] == rows[id]
    ensures f.id in rows ==>
      var old_ := rows[f.id];
      var new_ := UsageUpdated(rows, f)[f.id];
      new_.timesOpened == f.timesOpened && new_.lastOpened == f.lastOpened &&
      new_.id == old_.id && new_.path == old_.path && new_.name == old_.name &&
      new_.date == old_.date && new_.createdAt == old_.createdAt
  {
  }

  lemma UsageUpdatePreservesWellFormed(rows: map<int, TryFolder>, nextId: int, f: TryFolder)
    requires WellFormed(rows, nextId)
    ensures WellFormed(UsageUpdated(rows, f), nextId)
  {
    var r := UsageUpdated(rows, f);
    forall a, b | a in r && b in r && r[a].path == r[b].path
      ensures a == b
    {
      assert r[a].path == rows[a].path && r[b].path == rows[b].path;
    }
  }

  /** Inserting a row whose path is new keeps the table well formed, under a fresh id. */
  lemma InsertPreservesWellFormed(rows: map<int, TryFolder>, nextId: int, f: TryFolder)
    requires WellFormed(rows, nextId) && !PathTaken(rows, f.path)
    ensures nextId !in rows
    ensures WellFormed(Inserted(rows, nextId, f), nextId + 1)
  {
    var r := Inserted(rows, nextId, f);
    forall a, b | a in r && b in r && r[a].path == r[b].path
      ensures a == b
    {
      if a != nextId && b != nextId {
        assert rows[a].path == rows[b].path;
      }
    }
  }

  /** The folders table of one database file. */
  class FolderTable {
    var rows: map<int, TryFolder>
    var nextId: int

    ghost predicate Valid()
      reads this
    {
      WellFormed(rows, nextId)
    }

    /** initDB on a fresh file: an empty table; AUTOINCREMENT starts at 1. */
    constructor ()
      ensures Valid() && rows == map[] && nextId == 1
    {
      rows := map[];
      nextId := 1;
    }

    /** updateFolder */
    method UpdateFolder(f: TryFolder)
      requires Valid()
      modifies this
      ensures Valid()
      ensures rows == UsageUpdated(old(rows), f) && nextId == old(nextId)
    {
      UsageUpdatePreservesWellFormed(rows, nextId, f);
      if f.id in rows {
        rows := rows[f.id := rows[f.id].(timesOpened := f.timesOpened, lastOpened := f.lastOpened)];
      }
    }

    /** addFolder; `ok` is false when the path is already recorded (the UNIQUE constraint). */
    method AddFolder(f: TryFolder) returns (ok: bool)
      requires Valid()
      modifies this
      ensures Valid()
      ensures ok == !PathTaken(old(rows), f.path)
      ensures ok ==> rows == Inserted(old(rows), old(nextId), f) && nextId == old(nextId) + 1
      ensures !ok ==> rows == old(rows) && nextId == old(nextId)
    {
      ok := !PathTaken(rows, f.path);
      if ok {
        InsertPreservesWellFormed(rows, nextId, f);
        rows := rows[nextId := f.(id := nextId)];
        nextId := nextId + 1;
      }
    }
  }
}
