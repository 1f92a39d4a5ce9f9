// The folder record of the launcher and the pure operations on it: reopening a
// record, synthesising a new dated folder, and expanding a leading "~/".

module Folders {

  datatype Option<T> = None | Some(value: T)

  datatype Result<T, E> = Ok(value: T) | Err(error: E)

  /** The home directory could not be determined (os.UserHomeDir failed). */
  datatype HomeError = HomeUnavailable

  /** One row of the history. Timestamps are whole seconds since an epoch. */
  datatype TryFolder = TryFolder(
    id: int,
    path: string,
    name: string,
    date: string,
    createdAt: int,
    timesOpened: int,
    lastOpened: int)

  /** Where the scratch folders live, before the home directory is expanded. */
  const TryDir: string := "~/try"

  /** The record as it is persisted after being selected at time `now`. */
  function Reopened(f: TryFolder, now: int): (g: TryFolder)
    ensures g.timesOpened == f.timesOpened + 1 && g.lastOpened == now
    ensures g.id == f.id && g.path == f.path && g.name == f.name
    ensures g.date == f.date && g.createdAt == f.createdAt
  {
    f.(timesOpened := f.timesOpened + 1, lastOpened := now)
  }

  /** filepath.Join of two elements, without the lexical clean-up of the result. */
  function JoinPath(base: string, elem: string): string
  {
    if base == "" then elem else base + "/" + elem
  }

  /** The folder name of a new entry: the creation date, a dash, the query. */
  function FolderName(today: string, name: string): string
  {
    today + "-" + name
  }

  /** The record main builds for a new folder; the store assigns its id on insertion. */
  function NewFolder(base: string, today: string, name: string, now: int): (f: TryFolder)
    ensures f.path == JoinPath(base, FolderName(today, name))
    ensures f.name == name && f.date == today
    ensures f.timesOpened == 1 && f.createdAt == now && f.lastOpened == now
  {
    TryFolder(0, JoinPath(base, FolderName(today, name)), name, today, now, 1, now)
  }

  /** Two queries without '/' create the same folder path on the same day only when
      they are equal. (With a '/', the clean-up filepath.Join applies can make two
      different queries, such as "foo" and "foo/", collide.) */
  lemma NewFolderPathInjective(base: string, today: string, name1: string, name2: string, now1: int, now2: int)
    requires '/' !in name1 && '/' !in name2
    ensures NewFolder(base, today, name1, now1).path == NewFolder(base, today, name2, now2).path
            <==> name1 == name2
  {
    var prefix := if base == "" then today + "-" else base + "/" + today + "-";
    assert JoinPath(base, FolderName(today, name1)) == prefix + name1;
    assert JoinPath(base, FolderName(today, name2)) == prefix + name2;
    if prefix + name1 == prefix + name2 {
      assert name1 == (prefix + name1)[|prefix|..];
      assert name2 == (prefix + name2)[|prefix|..];
    }
  }

  /** The position of the first occurrence of `c` in `s`. */
  function FirstIndex(s: string, c: char): (i: nat)
    requires c in s
    ensures i < |s| && s[i] == c && c !in s[..i]
  {
    if s[0] == c then 0 else 1 + FirstIndex(s[1..], c)
  }

  /** strings.Replace(s, string(c), with, 1): replace the first occurrence of `c` by `with`, if any. */
  function ReplaceFirst(s: string, c: char, with: string): string
  {
    if s == [] then []
    else if s[0] == c then with + s[1..]
    else [s[0]] + ReplaceFirst(s[1..], c, with)
  }

  /** A string without `c` is left alone. */
  lemma {:induction false} ReplaceFirstWithout(s: string, c: char, with: string)
    requires c !in s
    ensures ReplaceFirst(s, c, with) == s
  {
    if s != [] {
      assert s[0] != c && c !in s[1..];
      ReplaceFirstWithout(s[1..], c, with);
    }
  }

  /** Exactly the first `c` of a string that holds one is replaced. */
  lemma {:induction false} ReplaceFirstReplacesFirst(s: string, c: char, with: string)
    requires c in s
    ensures ReplaceFirst(s, c, with) == s[..FirstIndex(s, c)] + with + s[FirstIndex(s, c) + 1..]
  {
    if s[0] != c {
      var t := s[1..];
      assert c in t;
      ReplaceFirstReplacesFirst(t, c, with);
      var i := FirstIndex(t, c);
      assert FirstIndex(s, c) == i + 1;
      calc {
        ReplaceFirst(s, c, with);
        [s[0]] + ReplaceFirst(t, c, with);
        [s[0]] + (t[..i] + with + t[i + 1..]);
        ([s[0]] + t[..i]) + with + t[i + 1..];
        { assert [s[0]] + t[..i] == s[..i + 1]; assert t[i + 1..] == s[i + 2..]; }
        s[..i + 1] + with + s[i + 2..];
      }
    }
  }

  function HasPrefix(s: string, prefix: string): bool
  {
    |prefix| <= |s| && s[..|prefix|] == prefix
  }

  /** expandHomeDir: a path starting with "~/" gets the home directory in place of the "~";
      every other path is returned as it is, whether or not the home directory is known. */
  function ExpandHomeDir(path: string, home: Result<string, HomeError>): (r: Result<string, HomeError>)
    ensures HasPrefix(path, "~/") && home.Ok? ==> r == Ok(home.value + path[1..])
    ensures HasPrefix(path, "~/") && home.Err? ==> r == Err(home.error)
    ensures !HasPrefix(path, "~/") ==> r == Ok(path)
  {
    if HasPrefix(path, "~/") then
      match home
      case Err(e) => Err(e)
      case Ok(h) => Ok(ReplaceFirst(path, '~', h))
    else Ok(path)
  }

  /** The base directory the launcher uses is "<home>/try". */
  lemma BaseDirUnderHome(home: string)
    ensures ExpandHomeDir(TryDir, Ok(home)) == Ok(home + "/try")
  {
    assert TryDir[1..] == "/try";
  }
}
