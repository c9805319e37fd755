/** The final leaderboard (src/components/GameResults.tsx): the score
    object's entries sorted by descending score and numbered from 1, and the
    viewing player's own row. */
module GameResults {
  import opened Js
  import StableSort

  /** One `[name, score]` pair of `Object.entries(scores)`. */
  datatype Entry = Entry(name: string, score: int)

  datatype Ranked = Ranked(rank: int, name: string, score: int)

  /** The comparator `scoreB - scoreA` orders by this key, ascending. */
  function NegatedScore(e: Entry): int {
    -e.score
  }

  function NameOf(e: Entry): string {
    e.name
  }

  /** The keys of an object are distinct. */
  predicate DistinctNames(entries: seq<Entry>) {
    forall i, j | 0 <= i < j < |entries| :: entries[i].name != entries[j].name
  }

  /** `allPlayers`. */
  function AllPlayers(entries: seq<Entry>): seq<Ranked> {
    var sorted := StableSort.SortBy(entries, NegatedScore);
    seq(|sorted|, i requires 0 <= i < |sorted| => Ranked(i + 1, sorted[i].name, sorted[i].score))
  }

  /** The ranking read back as score entries. */
  function Unranked(r: seq<Ranked>): (s: seq<Entry>)
    ensures |s| == |r|
    ensures forall i | 0 <= i < |r| :: s[i] == Entry(r[i].name, r[i].score)
  {
    seq(|r|, i requires 0 <= i < |r| => Entry(r[i].name, r[i].score))
  }

  /** Dropping the ranks gives back the sorted entries. */
  lemma UnrankedIsSorted(entries: seq<Entry>)
    ensures Unranked(AllPlayers(entries)) == StableSort.SortBy(entries, NegatedScore)
  {
    StableSort.SortByPermutesAndSorts(entries, NegatedScore);
  }

  /** The ranking is a permutation of the entries, scores never increase
      down the list, ranks are 1..n in list order (ties still get distinct
      ranks), and each name appears once. */
  lemma RankingIsOrderedPermutation(entries: seq<Entry>)
    requires DistinctNames(entries)
    ensures var r := AllPlayers(entries);
            && multiset(Unranked(r)) == multiset(entries)
            && (forall i, j | 0 <= i < j < |r| :: r[i].score >= r[j].score)
            && (forall i | 0 <= i < |r| :: r[i].rank == i + 1)
            && (forall i, j | 0 <= i < j < |r| :: r[i].name != r[j].name)
  {
    StableSort.SortByPermutesAndSorts(entries, NegatedScore);
    UnrankedIsSorted(entries);
    assert StableSort.DistinctBy(entries, NameOf);
    StableSort.SortByDistinctBy(entries, NegatedScore, NameOf);
  }

  /** Players with equal scores keep the order of `Object.entries`. */
  lemma TiesKeepEntryOrder(entries: seq<Entry>, score: int)
    ensures StableSort.WithKey(Unranked(AllPlayers(entries)), NegatedScore, -score)
         == StableSort.WithKey(entries, NegatedScore, -score)
  {
    UnrankedIsSorted(entries);
    StableSort.SortByStable(entries, NegatedScore, -score);
  }

  /** Rank 1 holds a maximal score. */
  lemma FirstPlaceIsMaximal(entries: seq<Entry>)
    requires entries != []
    ensures var r := AllPlayers(entries);
            r != [] && r[0].rank == 1 && forall e | e in entries :: r[0].score >= e.score
  {
    var sorted := StableSort.SortBy(entries, NegatedScore);
    StableSort.SortByPermutesAndSorts(entries, NegatedScore);
    forall e | e in entries ensures sorted[0].score >= e.score {
      assert e in multiset(sorted);
      var j :| 0 <= j < |sorted| && sorted[j] == e;
      assert j == 0 || NegatedScore(sorted[0]) <= NegatedScore(sorted[j]);
    }
  }

  /** `allPlayers.find(p => p.name === playerName)`. */
  function Find(r: seq<Ranked>, name: string): (p: Option<Ranked>)
    ensures p.Some? ==> p.value in r && p.value.name == name
    ensures p.None? ==> forall i | 0 <= i < |r| :: r[i].name != name
    ensures p.Some? ==> exists i | 0 <= i < |r| :: r[i] == p.value && forall j | 0 <= j < i :: r[j].name != name
  {
    if r == [] then None
    else if r[0].name == name then Some(r[0])
    else Find(r[1..], name)
  }

  /** `playerResult`: nothing for a missing or empty player name. */
  function PlayerResult(r: seq<Ranked>, playerName: Option<string>): (p: Option<Ranked>)
    ensures playerName.None? || playerName == Some("") ==> p.None?
  {
    if playerName.Some? && playerName.value != "" then Find(r, playerName.value) else None
  }

  /** A named player's row is found exactly when the name is a key of the
      scores, and it carries that player's own score. */
  lemma PlayerResultIsOwnEntry(entries: seq<Entry>, name: string)
    requires DistinctNames(entries) && name != ""
    ensures var p := PlayerResult(AllPlayers(entries), Some(name));
            && (p.Some? <==> exists e | e in entries :: e.name == name)
            && (p.Some? ==> p.value.name == name && Entry(name, p.value.score) in entries)
  {
    var r := AllPlayers(entries);
    RankingIsOrderedPermutation(entries);
    var p := PlayerResult(r, Some(name));
    if p.Some? {
      var i :| 0 <= i < |r| && r[i] == p.value;
      assert Unranked(r)[i] == Entry(name, p.value.score);
      assert Entry(name, p.value.score) in multiset(Unranked(r));
    }
    if e :| e in entries && e.name == name {
      assert e in multiset(Unranked(r));
      var i :| 0 <= i < |Unranked(r)| && Unranked(r)[i] == e;
      assert r[i].name == name;
    }
  }
}
