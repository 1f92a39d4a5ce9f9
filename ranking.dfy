// fuzzySearch: the fuzzy matcher's hits mapped back to folders and ordered by
// score, then times opened, then last opened, best first.

module Ranking {
  import opened Folders

  /** One hit of the fuzzy matcher: the position of the matched name in the list
      it was given, and how well it matched (higher is better). */
  datatype Match = Match(index: int, score: int)

  /** The fuzzy matcher (fuzzy.Find), an uninterpreted function of the query and the names. */
  type Finder = (string, seq<string>) -> seq<Match>

  /** A folder together with the score of the hit that selected it. */
  datatype ScoredMatch = ScoredMatch(folder: TryFolder, score: int)

  /** The list of names handed to the matcher, in history order. */
  function Names(folders: seq<TryFolder>): seq<string>
  {
    seq(|folders|, i requires 0 <= i < |folders| => folders[i].name)
  }

  /** What the matcher promises: every hit names a position of the list. */
  predicate InRange(ms: seq<Match>, n: int)
  {
    forall k :: 0 <= k < |ms| ==> 0 <= ms[k].index < n
  }

  /** No position is reported twice. */
  predicate DistinctIndices(ms: seq<Match>)
  {
    forall k, l :: 0 <= k < l < |ms| ==> ms[k].index != ms[l].index
  }

  /** The hits mapped back to folders, in the matcher's order. */
  function Candidates(folders: seq<TryFolder>, ms: seq<Match>): seq<ScoredMatch>
    requires InRange(ms, |folders|)
  {
    seq(|ms|, k requires 0 <= k < |ms| => ScoredMatch(folders[ms[k].index], ms[k].score))
  }

  function FoldersOf(s: seq<ScoredMatch>): seq<TryFolder>
  {
    seq(|s|, k requires 0 <= k < |s| => s[k].folder)
  }

  /** The comparator given to sort.Slice: `x` goes strictly before `y`. */
  predicate RanksAbove(x: ScoredMatch, y: ScoredMatch)
  {
    if x.score != y.score then x.score > y.score
    else if x.folder.timesOpened != y.folder.timesOpened then x.folder.timesOpened > y.folder.timesOpened
    else x.folder.lastOpened > y.folder.lastOpened
  }

  /** No entry ranks strictly above an entry placed before it. */
  predicate SortedByRank(s: seq<ScoredMatch>)
  {
    forall p, q :: 0 <= p < q < |s| ==> !RanksAbove(s[q], s[p])
  }

  /** `ranked` is the matched candidates, reordered best first. */
  ghost predicate IsRanking(folders: seq<TryFolder>, ms: seq<Match>, ranked: seq<ScoredMatch>)
    requires InRange(ms, |folders|)
  {
    SortedByRank(ranked) && multiset(ranked) == multiset(Candidates(folders, ms))
  }

  /** What fuzzySearch returns for `query` over `folders`. */
  ghost predicate SearchResult(query: string, folders: seq<TryFolder>, find: Finder, result: seq<TryFolder>)
    requires query != "" ==> InRange(find(query, Names(folders)), |folders|)
  {
    if query == "" then result == folders
    else exists ranked :: IsRanking(folders, find(query, Names(folders)), ranked) && result == FoldersOf(ranked)
  }

  /** The comparator is a strict weak order: irreflexive, transitive, and
      "neither ranks above the other" means the three keys are equal. */
  lemma RanksAboveIsStrictWeakOrder(x: ScoredMatch, y: ScoredMatch, z: ScoredMatch)
    ensures !RanksAbove(x, x)
    ensures RanksAbove(x, y) && RanksAbove(y, z) ==> RanksAbove(x, z)
    ensures !RanksAbove(x, y) && !RanksAbove(y, x) <==>
              x.score == y.score && x.folder.timesOpened == y.folder.timesOpened
              && x.folder.lastOpened == y.folder.lastOpened
  {
  }

  /** The order of adjacent entries of a sorted list, key by key. */
  lemma SortedAdjacentKeys(s: seq<ScoredMatch>, i: nat)
    requires SortedByRank(s) && i + 1 < |s|
    ensures s[i].score >= s[i + 1].score
    ensures s[i].score == s[i + 1].score ==> s[i].folder.timesOpened >= s[i + 1].folder.timesOpened
    ensures s[i].score == s[i + 1].score && s[i].folder.timesOpened == s[i + 1].folder.timesOpened
            ==> s[i].folder.lastOpened >= s[i + 1].folder.lastOpened
  {
    assert !RanksAbove(s[i + 1], s[i]);
  }

  /** A ranking has exactly one entry per hit of the matcher. */
  lemma RankingLength(folders: seq<TryFolder>, ms: seq<Match>, ranked: seq<ScoredMatch>)
    requires InRange(ms, |folders|) && IsRanking(folders, ms, ranked)
    ensures |ranked| == |ms| && |FoldersOf(ranked)| == |ms|
  {
    calc {
      |ranked|;
      |multiset(ranked)|;
      |multiset(Candidates(folders, ms))|;
      |Candidates(folders, ms)|;
    }
  }

  /** Every entry of a ranking is a hit mapped back to its folder, and every hit is in the ranking. */
  lemma RankingIsTheHits(folders: seq<TryFolder>, ms: seq<Match>, ranked: seq<ScoredMatch>)
    requires InRange(ms, |folders|) && IsRanking(folders, ms, ranked)
    ensures forall k :: 0 <= k < |ranked| ==>
      exists j :: 0 <= j < |ms| && ranked[k] == ScoredMatch(folders[ms[j].index], ms[j].score)
    ensures forall j :: 0 <= j < |ms| ==> ScoredMatch(folders[ms[j].index], ms[j].score) in ranked
  {
    var c := Candidates(folders, ms);
    forall k | 0 <= k < |ranked|
      ensures exists j :: 0 <= j < |ms| && ranked[k] == ScoredMatch(folders[ms[j].index], ms[j].score)
    {
      assert ranked[k] in multiset(c);
      var j :| 0 <= j < |c| && c[j] == ranked[k];
    }
    forall j | 0 <= j < |ms|
      ensures ScoredMatch(folders[ms[j].index], ms[j].score) in ranked
    {
      assert c[j] in multiset(ranked);
    }
  }

  /** Taking out the entry at position `k` takes one copy of it out of the multiset,
      and one copy of its folder out of the folders' multiset. */
  lemma RemoveAt(b: seq<ScoredMatch>, k: nat)
    requires k < |b|
    ensures multiset(b) == multiset(b[..k] + b[k + 1..]) + multiset{b[k]}
    ensures multiset(FoldersOf(b)) == multiset(FoldersOf(b[..k] + b[k + 1..])) + multiset{b[k].folder}
  {
    assert b == b[..k] + [b[k]] + b[k + 1..];
    var fb := FoldersOf(b);
    assert FoldersOf(b[..k] + b[k + 1..]) == fb[..k] + fb[k + 1..];
    assert fb == fb[..k] + [b[k].folder] + fb[k + 1..];
  }

  lemma CancelOne(m: multiset<ScoredMatch>, n: multiset<ScoredMatch>, x: ScoredMatch)
    requires m + multiset{x} == n + multiset{x}
    ensures m == n
  {
    assert m == (m + multiset{x}) - multiset{x};
    assert n == (n + multiset{x}) - multiset{x};
  }

  /** Reordering scored matches reorders their folders the same way. */
  lemma {:induction false} FoldersOfPermutation(a: seq<ScoredMatch>, b: seq<ScoredMatch>)
    requires multiset(a) == multiset(b)
    ensures multiset(FoldersOf(a)) == multiset(FoldersOf(b))
    decreases |a|
  {
    if a == [] {
      assert |b| == |multiset(b)| == 0;
    } else {
      var x := a[0];
      assert x in multiset(b);
      var k :| 0 <= k < |b| && b[k] == x;
      RemoveAt(b, k);
      RemoveAt(a, 0);
      assert a[..0] + a[1..] == a[1..];
      CancelOne(multiset(a[1..]), multiset(b[..k] + b[k + 1..]), x);
      FoldersOfPermutation(a[1..], b[..k] + b[k + 1..]);
    }
  }

  /** Removing position `j` from the history and renumbering the hits that avoid it
      picks the same folders. */
  lemma PicksAfterRemoval(folders: seq<TryFolder>, rest: seq<Match>, j: int)
    requires InRange(rest, |folders|) && 0 <= j < |folders|
    requires forall k :: 0 <= k < |rest| ==> rest[k].index != j
    ensures InRange(Renumbered(rest, j), |folders| - 1)
    ensures FoldersOf(Candidates(folders[..j] + folders[j + 1..], Renumbered(rest, j)))
            == FoldersOf(Candidates(folders, rest))
  {
    var folders' := folders[..j] + folders[j + 1..];
    forall k | 0 <= k < |rest|
      ensures folders'[Renumbered(rest, j)[k].index] == folders[rest[k].index]
    {
      var i := rest[k].index;
      if i > j {
        assert folders'[i - 1] == folders[j + 1..][i - 1 - j];
      }
    }
  }

  /** The hits renumbered for a history that has lost position `j`. */
  function Renumbered(ms: seq<Match>, j: int): seq<Match>
  {
    seq(|ms|, k requires 0 <= k < |ms| =>
      Match(if ms[k].index < j then ms[k].index else ms[k].index - 1, ms[k].score))
  }

  /** Hits at distinct positions pick each folder of the history at most as often as it occurs there. */
  lemma {:induction false} HitsAreSubMultiset(folders: seq<TryFolder>, ms: seq<Match>)
    requires InRange(ms, |folders|) && DistinctIndices(ms)
    ensures multiset(FoldersOf(Candidates(folders, ms))) <= multiset(folders)
    decreases |ms|
  {
    if ms != [] {
      var j := ms[0].index;
      var rest := ms[1..];
      assert forall k :: 0 <= k < |rest| ==> rest[k].index != j by {
        forall k | 0 <= k < |rest| ensures rest[k].index != j {
          assert rest[k] == ms[k + 1];
        }
      }
      var folders' := folders[..j] + folders[j + 1..];
      PicksAfterRemoval(folders, rest, j);
      assert DistinctIndices(Renumbered(rest, j));
      HitsAreSubMultiset(folders', Renumbered(rest, j));
      assert folders == folders[..j] + [folders[j]] + folders[j + 1..];
      assert multiset(folders) == multiset(folders') + multiset{folders[j]};
      assert FoldersOf(Candidates(folders, ms)) == [folders[j]] + FoldersOf(Candidates(folders, rest));
    }
  }

  /** With distinct hits (as fuzzy.Find reports them), a ranking neither invents nor duplicates a folder. */
  lemma RankingIsSubMultiset(folders: seq<TryFolder>, ms: seq<Match>, ranked: seq<ScoredMatch>)
    requires InRange(ms, |folders|) && DistinctIndices(ms) && IsRanking(folders, ms, ranked)
    ensures multiset(FoldersOf(ranked)) <= multiset(folders)
  {
    FoldersOfPermutation(ranked, Candidates(folders, ms));
    HitsAreSubMultiset(folders, ms);
  }

  /** Two hits: the folder with the score at least as high and the larger opening count
      is ranked first, wherever the two sit in the history and in either order the
      matcher reports them. */
  lemma TwoHitsRankByScoreThenOpenings(folders: seq<TryFolder>, i: int, j: int, sa: int, sb: int,
                                       ms: seq<Match>, ranked: seq<ScoredMatch>)
    requires 0 <= i < |folders| && 0 <= j < |folders|
    requires ms == [Match(i, sa), Match(j, sb)] || ms == [Match(j, sb), Match(i, sa)]
    requires sa >= sb && folders[i].timesOpened > folders[j].timesOpened
    requires IsRanking(folders, ms, ranked)
    ensures FoldersOf(ranked) == [folders[i], folders[j]]
  {
    var x, y := ScoredMatch(folders[i], sa), ScoredMatch(folders[j], sb);
    if ms == [Match(i, sa), Match(j, sb)] {
      assert Candidates(folders, ms) == [x, y];
    } else {
      assert Candidates(folders, ms) == [y, x];
    }
    assert multiset(Candidates(folders, ms)) == multiset{x, y};
    RankingLength(folders, ms, ranked);
    assert ranked == [ranked[0], ranked[1]];
    assert multiset{ranked[0], ranked[1]} == multiset{x, y};
    assert RanksAbove(x, y);
    assert ranked[0] == x && ranked[1] == y;
  }

  /** sort.Slice over the scored matches: insertion sort by adjacent swaps. */
  method SortByRank(a: array<ScoredMatch>)
    modifies a
    ensures SortedByRank(a[..])
    ensures multiset(a[..]) == multiset(old(a[..]))
  {
    var i := 0;
    while i < a.Length
      invariant 0 <= i <= a.Length
      invariant SortedByRank(a[..i])
      invariant multiset(a[..]) == multiset(old(a[..]))
    {
      var j := i;
      while j > 0 && RanksAbove(a[j], a[j - 1])
        invariant 0 <= j <= i
        invariant forall p, q :: 0 <= p < q <= i && p != j && q != j ==> !RanksAbove(a[q], a[p])
        invariant forall q :: j < q <= i ==> !RanksAbove(a[q], a[j])
        invariant multiset(a[..]) == multiset(old(a[..]))
      {
        a[j - 1], a[j] := a[j], a[j - 1];
        j := j - 1;
      }
      forall p | 0 <= p < j
        ensures !RanksAbove(a[j], a[p])
      {
        RanksAboveIsStrictWeakOrder(a[j], a[j - 1], a[p]);
      }
      i := i + 1;
    }
  }

  /** fuzzySearch. The ghost `ranked` keeps the scores the result is ordered by. */
  method FuzzySearch(query: string, folders: seq<TryFolder>, find: Finder)
    returns (result: seq<TryFolder>, ghost ranked: seq<ScoredMatch>)
    requires query != "" ==> InRange(find(query, Names(folders)), |folders|)
    ensures query == "" ==> result == folders
    ensures query != "" ==> |result| == |find(query, Names(folders))|
    ensures query != "" ==> IsRanking(folders, find(query, Names(folders)), ranked)
                            && result == FoldersOf(ranked)
    ensures SearchResult(query, folders, find, result)
  {
    if query == "" {
      return folders, [];
    }

    var folderList := new string[|folders|];
    for i := 0 to |folders|
      invariant forall k :: 0 <= k < i ==> folderList[k] == folders[k].name
    {
      folderList[i] := folders[i].name;
    }
    assert folderList[..] == Names(folders);

    var matches := find(query, folderList[..]);
    if |matches| == 0 {
      assert Candidates(folders, matches) == [];
      return [], [];
    }

    var scoredMatches := new ScoredMatch[|matches|];
    for i := 0 to |matches|
      invariant forall k :: 0 <= k < i ==>
        scoredMatches[k] == ScoredMatch(folders[matches[k].index], matches[k].score)
    {
      scoredMatches[i] := ScoredMatch(folders[matches[i].index], matches[i].score);
    }
    assert scoredMatches[..] == Candidates(folders, matches);

    SortByRank(scoredMatches);
    ranked := scoredMatches[..];

    var out := new TryFolder[scoredMatches.Length];
    for i := 0 to scoredMatches.Length
      invariant scoredMatches[..] == ranked
      invariant forall k :: 0 <= k < i ==> out[k] == scoredMatches[k].folder
    {
      out[i] := scoredMatches[i].folder;
    }
    result := out[..];
    assert result == FoldersOf(ranked);
    assert IsRanking(folders, matches, ranked);
    RankingLength(folders, matches, ranked);
  }
}
