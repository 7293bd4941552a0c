/**
 * The two score lists kept by the session: the high-score table (push,
 * sort, drop the last one beyond five) and the scoreboard (best score per
 * name, sorted, first ten kept). Both are values handed in from and out to
 * storage; sorting is the stable sort by descending score that a sort with
 * comparator `b.score - a.score` performs.
 */
module ScoreLists {
  import opened Utils

  datatype ScoreEntry = ScoreEntry(name: string, score: int)

  /** Length of the high-score table. */
  const HighScoreCap: int := 5
  /** Length of the scoreboard. */
  const ScoreboardCap: int := 10

  predicate SortedDesc(s: seq<ScoreEntry>)
  {
    forall i, j :: 0 <= i < j < |s| ==> s[i].score >= s[j].score
  }

  /** The names occurring in a list. */
  function NameSet(s: seq<ScoreEntry>): set<string>
  {
    set e | e in s :: e.name
  }

  /** No name occurs twice. */
  predicate UniqueNames(s: seq<ScoreEntry>)
  {
    forall i, j :: 0 <= i < j < |s| ==> s[i].name != s[j].name
  }

  // ---------------------------------------------------------------------------
  // Stable sort by descending score
  // ---------------------------------------------------------------------------

  /** Inserts e after every leading entry that scores at least as much. */
  function InsertDesc(s: seq<ScoreEntry>, e: ScoreEntry): (r: seq<ScoreEntry>)
    ensures |r| == |s| + 1
    ensures multiset(r) == multiset(s) + multiset{e}
  {
    if s == [] then [e]
    else if s[0].score >= e.score then
      assert s == [s[0]] + s[1..];
      [s[0]] + InsertDesc(s[1..], e)
    else [e] + s
  }

  /** Inserting into a sorted list keeps it sorted. */
  lemma {:induction false} InsertDescSorted(s: seq<ScoreEntry>, e: ScoreEntry)
    requires SortedDesc(s)
    ensures SortedDesc(InsertDesc(s, e))
    decreases |s|
  {
    if s != [] && s[0].score >= e.score {
      InsertDescSorted(s[1..], e);
      var r := InsertDesc(s[1..], e);
      MultisetSameElements(r, s[1..] + [e]);
      forall j | 0 <= j < |r|
        ensures s[0].score >= r[j].score
      {
        assert r[j] in r;
      }
    }
  }

  /**
   * Insertion sort by descending score. Each element is inserted behind the
   * earlier ones with an equal score (see `InsertDescAtEnd`).
   */
  function SortDesc(s: seq<ScoreEntry>): (r: seq<ScoreEntry>)
    ensures |r| == |s|
    ensures multiset(r) == multiset(s)
    ensures SortedDesc(r)
  {
    if s == [] then []
    else
      assert s == s[..|s| - 1] + [s[|s| - 1]];
      InsertDescSorted(SortDesc(s[..|s| - 1]), s[|s| - 1]);
      InsertDesc(SortDesc(s[..|s| - 1]), s[|s| - 1])
  }

  /** An entry scoring no more than any in the list is inserted at the end. */
  lemma {:induction false} InsertDescAtEnd(s: seq<ScoreEntry>, e: ScoreEntry)
    requires forall x :: x in s ==> x.score >= e.score
    ensures InsertDesc(s, e) == s + [e]
    decreases |s|
  {
    if s != [] {
      InsertDescAtEnd(s[1..], e);
    }
  }

  /** Sorting an already sorted list leaves it as it is. */
  lemma {:induction false} SortDescSorted(s: seq<ScoreEntry>)
    requires SortedDesc(s)
    ensures SortDesc(s) == s
    decreases |s|
  {
    if s != [] {
      var init := s[..|s| - 1];
      SortDescSorted(init);
      InsertDescAtEnd(init, s[|s| - 1]);
      assert init + [s[|s| - 1]] == s;
    }
  }

  /** Sorting a sorted list with one entry appended inserts that entry behind all that score at least as much. */
  lemma SortDescAppend(s: seq<ScoreEntry>, e: ScoreEntry)
    requires SortedDesc(s)
    ensures SortDesc(s + [e]) == InsertDesc(s, e)
  {
    assert (s + [e])[..|s|] == s;
    SortDescSorted(s);
  }

  lemma MultisetSameElements(a: seq<ScoreEntry>, b: seq<ScoreEntry>)
    requires multiset(a) == multiset(b)
    ensures forall x :: x in a <==> x in b
  {
    forall x
      ensures x in a <==> x in b
    {
      assert x in a <==> x in multiset(a);
      assert x in b <==> x in multiset(b);
    }
  }

  /** Inserting an entry with a new name into a list of unique names keeps the names unique. */
  lemma {:induction false} InsertDescUnique(s: seq<ScoreEntry>, e: ScoreEntry)
    requires UniqueNames(s) && e.name !in NameSet(s)
    ensures UniqueNames(InsertDesc(s, e))
    decreases |s|
  {
    if s != [] && s[0].score >= e.score {
      NameSetTail(s);
      InsertDescUnique(s[1..], e);
      var r := InsertDesc(s[1..], e);
      MultisetSameElements(r, s[1..] + [e]);
      forall j | 0 < j < |r| + 1
        ensures s[0].name != ([s[0]] + r)[j].name
      {
        var x := r[j - 1];
        assert x in r;
        if x != e {
          assert x in s[1..];
          var k :| 0 <= k < |s[1..]| && s[1..][k] == x;
          assert s[k + 1] == x;
        } else {
          assert s[0] in s;
        }
      }
    } else if s != [] {
      forall j | 0 < j < |s| + 1
        ensures e.name != ([e] + s)[j].name
      {
        assert s[j - 1] in s;
      }
    }
  }

  /** Dropping the head of a list keeps its names among the list's names. */
  lemma NameSetTail(s: seq<ScoreEntry>)
    requires s != []
    ensures NameSet(s[1..]) <= NameSet(s)
  {
    forall n | n in NameSet(s[1..]) ensures n in NameSet(s) {
      var x :| x in s[1..] && x.name == n;
      assert x in s;
    }
  }

  /** Sorting keeps the names of a list unique. */
  lemma {:induction false} SortDescUnique(s: seq<ScoreEntry>)
    requires UniqueNames(s)
    ensures UniqueNames(SortDesc(s))
    decreases |s|
  {
    if s != [] {
      var init, last := s[..|s| - 1], s[|s| - 1];
      SortDescUnique(init);
      var sorted := SortDesc(init);
      MultisetSameElements(sorted, init);
      forall x | x in sorted
        ensures x.name != last.name
      {
        var k :| 0 <= k < |init| && init[k] == x;
        assert s[k] == x;
      }
      InsertDescUnique(sorted, last);
    }
  }

  /** Whatever of `all` is missing from `kept` scores no more than anything kept. */
  predicate DropsOnlyLowest(all: multiset<ScoreEntry>, kept: seq<ScoreEntry>)
  {
    forall x, y :: x in all - multiset(kept) && y in kept ==> x.score <= y.score
  }

  /** Cutting a sorted list after k entries drops only its lowest entries. */
  lemma SortedPrefixDropsOnlyLowest(s: seq<ScoreEntry>, k: nat)
    requires SortedDesc(s) && k <= |s|
    ensures DropsOnlyLowest(multiset(s), s[..k])
  {
    var kept, dropped := s[..k], s[k..];
    assert s == kept + dropped;
    assert multiset(s) - multiset(kept) == multiset(dropped);
    forall x, y | x in multiset(s) - multiset(kept) && y in kept
      ensures x.score <= y.score
    {
      assert x in multiset(dropped);
      var i :| 0 <= i < |dropped| && dropped[i] == x;
      var j :| 0 <= j < |kept| && kept[j] == y;
      assert s[j].score >= s[k + i].score;
    }
  }

  // ---------------------------------------------------------------------------
  // High-score table
  // ---------------------------------------------------------------------------

  /** Whether a score earns a place: the table has room, or it beats the last entry. */
  predicate IsHighScoreFor(highScores: seq<ScoreEntry>, score: int)
    ensures |highScores| < HighScoreCap ==> IsHighScoreFor(highScores, score)
    ensures SortedDesc(highScores) ==>
      (IsHighScoreFor(highScores, score) <==>
        |highScores| < HighScoreCap || exists i :: 0 <= i < |highScores| && score > highScores[i].score)
  {
    |highScores| < HighScoreCap || score > highScores[|highScores| - 1].score
  }

  /** The table after adding an entry: appended, sorted by descending score, and the last one dropped if there are more than five. */
  function AddedHighScores(highScores: seq<ScoreEntry>, name: string, score: int): (r: seq<ScoreEntry>)
    ensures SortedDesc(r)
    ensures |r| == if |highScores| + 1 > HighScoreCap then |highScores| else |highScores| + 1
    ensures multiset(r) <= multiset(highScores) + multiset{ScoreEntry(name, score)}
  {
    var sorted := SortDesc(highScores + [ScoreEntry(name, score)]);
    if |sorted| > HighScoreCap then
      assert sorted == sorted[..|sorted| - 1] + [sorted[|sorted| - 1]];
      sorted[..|sorted| - 1]
    else sorted
  }

  /**
   * Adding to the table loses nothing while it has room, and otherwise
   * drops only the lowest entry: whatever of the old table and the new
   * entry is not in the result scores no more than anything in it.
   */
  lemma AddedHighScoresDropsLowest(highScores: seq<ScoreEntry>, name: string, score: int)
    ensures var all := multiset(highScores) + multiset{ScoreEntry(name, score)};
      var r := AddedHighScores(highScores, name, score);
      (|highScores| < HighScoreCap ==> multiset(r) == all) && DropsOnlyLowest(all, r)
  {
    var all := highScores + [ScoreEntry(name, score)];
    var sorted := SortDesc(all);
    var r := AddedHighScores(highScores, name, score);
    assert multiset(sorted) == multiset(highScores) + multiset{ScoreEntry(name, score)};
    var k := if |sorted| > HighScoreCap then |sorted| - 1 else |sorted|;
    assert r == sorted[..k];
    SortedPrefixDropsOnlyLowest(sorted, k);
  }

  /** Adding to a table of at most five entries leaves a sorted table of at most five entries. */
  lemma AddedHighScoresCapped(highScores: seq<ScoreEntry>, name: string, score: int)
    requires |highScores| <= HighScoreCap
    ensures |AddedHighScores(highScores, name, score)| <= HighScoreCap
    ensures SortedDesc(AddedHighScores(highScores, name, score))
  {
  }

  /**
   * On a sorted table of at most five entries, a score that is not a high
   * score leaves the table unchanged: the stable sort puts the new entry
   * last, and it is the one dropped.
   */
  lemma AddedHighScoresNotHighScore(highScores: seq<ScoreEntry>, name: string, score: int)
    requires SortedDesc(highScores) && |highScores| <= HighScoreCap
    requires !IsHighScoreFor(highScores, score)
    ensures AddedHighScores(highScores, name, score) == highScores
  {
    var e := ScoreEntry(name, score);
    var n := |highScores|;
    SortDescAppend(highScores, e);
    assert forall x :: x in highScores ==> x.score >= score by {
      forall x | x in highScores ensures x.score >= score {
        var k :| 0 <= k < n && highScores[k] == x;
      }
    }
    InsertDescAtEnd(highScores, e);
    assert (highScores + [e])[..n] == highScores;
  }

  /** On a sorted table of at most five entries, a high score is in the new table. */
  lemma AddedHighScoresKeepsHighScore(highScores: seq<ScoreEntry>, name: string, score: int)
    requires SortedDesc(highScores) && |highScores| <= HighScoreCap
    requires IsHighScoreFor(highScores, score)
    ensures ScoreEntry(name, score) in AddedHighScores(highScores, name, score)
  {
    var e := ScoreEntry(name, score);
    SortDescAppend(highScores, e);
    if |highScores| == HighScoreCap {
      InsertDescBefore(highScores, e);
    } else {
      assert e in multiset(InsertDesc(highScores, e));
    }
  }

  /** An entry scoring more than the last entry of a sorted list lands before the end. */
  lemma {:induction false} InsertDescBefore(s: seq<ScoreEntry>, e: ScoreEntry)
    requires s != [] && e.score > s[|s| - 1].score
    ensures e in InsertDesc(s, e)[..|s|]
    decreases |s|
  {
    if s[0].score >= e.score {
      assert |s| > 1;
      var r := InsertDesc(s[1..], e);
      InsertDescBefore(s[1..], e);
      assert e in r[..|s| - 1];
      assert InsertDesc(s, e)[..|s|] == [s[0]] + r[..|s| - 1];
    } else {
      assert InsertDesc(s, e)[0] == e;
    }
  }

  /** Names are not deduplicated: a second entry under the same name is kept beside the first. */
  lemma AddedHighScoresKeepsDuplicates()
    ensures AddedHighScores([ScoreEntry("ann", 10)], "ann", 20) == [ScoreEntry("ann", 20), ScoreEntry("ann", 10)]
  {
    var first, second := ScoreEntry("ann", 10), ScoreEntry("ann", 20);
    SortDescAppend([first], second);
    assert InsertDesc([first], second) == [second, first];
  }

  // ---------------------------------------------------------------------------
  // Scoreboard
  // ---------------------------------------------------------------------------

  /** Index of the first entry with the given name. */
  function FindByName(scores: seq<ScoreEntry>, name: string): (r: Option<nat>)
    ensures r.Some? ==> (r.value < |scores| && scores[r.value].name == name &&
      forall k :: 0 <= k < r.value ==> scores[k].name != name)
    ensures r.None? <==> name !in NameSet(scores)
  {
    if scores == [] then None
    else if scores[0].name == name then Some(0)
    else match FindByName(scores[1..], name)
      case None => assert NameSet(scores) == {scores[0].name} + NameSet(scores[1..]); None
      case Some(i) => Some(i + 1)
  }

  /** The list before sorting: the player's first entry raised to the new score if that is better, or a new entry appended. */
  function UpdatedScores(scores: seq<ScoreEntry>, score: int, name: string): seq<ScoreEntry>
  {
    match FindByName(scores, name)
    case Some(i) =>
      if score > scores[i].score then scores[i := ScoreEntry(name, score)] else scores
    case None => scores + [ScoreEntry(name, score)]
  }

  /**
   * Updating touches only the player's entry: every other entry stays in
   * its place, and the list grows by one entry for the player exactly when
   * the name was not on it.
   */
  lemma UpdatedScoresChangesOnlyPlayer(scores: seq<ScoreEntry>, score: int, name: string)
    ensures var r := UpdatedScores(scores, score, name);
      |r| == |scores| + (if name in NameSet(scores) then 0 else 1) &&
      (forall k :: 0 <= k < |scores| && scores[k].name != name ==> r[k] == scores[k]) &&
      (name !in NameSet(scores) ==> r[|scores|] == ScoreEntry(name, score))
  {
  }

  /** The scoreboard after saving a score: best score per name, sorted by descending score, first ten kept. */
  function SavedScores(scores: seq<ScoreEntry>, score: int, name: string): (r: seq<ScoreEntry>)
    ensures SortedDesc(r)
    ensures |r| <= ScoreboardCap
  {
    var sorted := SortDesc(UpdatedScores(scores, score, name));
    if |sorted| > ScoreboardCap then sorted[..ScoreboardCap] else sorted
  }

  /**
   * Saving loses nothing of the updated list while it fits in ten entries,
   * and otherwise cuts only its lowest entries.
   */
  lemma SavedScoresDropsLowest(scores: seq<ScoreEntry>, score: int, name: string)
    ensures var updated := UpdatedScores(scores, score, name);
      var r := SavedScores(scores, score, name);
      (|updated| <= ScoreboardCap ==> multiset(r) == multiset(updated)) &&
      DropsOnlyLowest(multiset(updated), r)
  {
    var sorted := SortDesc(UpdatedScores(scores, score, name));
    if |sorted| > ScoreboardCap {
      SortedPrefixDropsOnlyLowest(sorted, ScoreboardCap);
    } else {
      assert sorted[..|sorted|] == sorted;
      SortedPrefixDropsOnlyLowest(sorted, |sorted|);
    }
  }

  /**
   * Saving never loses another player's entry while the scoreboard has room:
   * every entry under a different name is still on it.
   */
  lemma SavedScoresKeepsOthers(scores: seq<ScoreEntry>, score: int, name: string)
    requires |scores| < ScoreboardCap || (name in NameSet(scores) && |scores| <= ScoreboardCap)
    ensures forall e :: e in scores && e.name != name ==> e in SavedScores(scores, score, name)
  {
    var updated := UpdatedScores(scores, score, name);
    var r := SavedScores(scores, score, name);
    UpdatedScoresChangesOnlyPlayer(scores, score, name);
    SavedScoresDropsLowest(scores, score, name);
    MultisetSameElements(r, updated);
    forall e | e in scores && e.name != name
      ensures e in r
    {
      var k :| 0 <= k < |scores| && scores[k] == e;
      assert updated[k] == e;
    }
  }

  /** Saving keeps the names of the scoreboard unique. */
  lemma SavedScoresUnique(scores: seq<ScoreEntry>, score: int, name: string)
    requires UniqueNames(scores)
    ensures UniqueNames(SavedScores(scores, score, name))
  {
    var updated := UpdatedScores(scores, score, name);
    assert UniqueNames(updated) by {
      match FindByName(scores, name)
      case Some(i) =>
        if score > scores[i].score {
          assert updated == scores[i := ScoreEntry(name, score)];
          forall a, b | 0 <= a < b < |updated| ensures updated[a].name != updated[b].name {
            assert updated[a].name == scores[a].name && updated[b].name == scores[b].name;
          }
        }
      case None =>
        forall a, b | 0 <= a < b < |updated| ensures updated[a].name != updated[b].name {
          if b == |scores| {
            assert scores[a] in scores;
          }
        }
    }
    SortDescUnique(updated);
  }

  /**
   * On a scoreboard with unique names and room for the player (the player
   * is already on it, or it has fewer than ten entries), saving leaves
   * exactly one entry for the player, holding the better of the old and new
   * scores.
   */
  lemma SavedScoresKeepsBest(scores: seq<ScoreEntry>, score: int, name: string)
    requires UniqueNames(scores) && |scores| <= ScoreboardCap
    requires name in NameSet(scores) || |scores| < ScoreboardCap
    ensures var r := SavedScores(scores, score, name);
      var best := match FindByName(scores, name)
        case Some(i) => if score > scores[i].score then score else scores[i].score
        case None => score;
      ScoreEntry(name, best) in r &&
      forall e :: e in r && e.name == name ==> e.score == best
  {
    var updated := UpdatedScores(scores, score, name);
    var r := SavedScores(scores, score, name);
    var best := match FindByName(scores, name)
        case Some(i) => if score > scores[i].score then score else scores[i].score
        case None => score;
    assert |updated| <= ScoreboardCap;
    assert r == SortDesc(updated);
    assert ScoreEntry(name, best) in updated by {
      match FindByName(scores, name)
      case Some(i) => assert updated[i] == ScoreEntry(name, best);
      case None => assert updated[|scores|] == ScoreEntry(name, best);
    }
    MultisetSameElements(r, updated);
    SavedScoresUnique(scores, score, name);
    forall e | e in r && e.name == name ensures e.score == best {
      OneEntryPerName(r, e, ScoreEntry(name, best));
    }
  }

  /** In a list without repeated names, two entries with the same name are the same entry. */
  lemma OneEntryPerName(s: seq<ScoreEntry>, e1: ScoreEntry, e2: ScoreEntry)
    requires UniqueNames(s) && e1 in s && e2 in s && e1.name == e2.name
    ensures e1 == e2
  {
    var a :| 0 <= a < |s| && s[a] == e1;
    var b :| 0 <= b < |s| && s[b] == e2;
    assert a == b;
  }

  /** Saving 100 and then 200 under a new name leaves one entry for that name, with 200. */
  lemma SaveTwiceKeepsHigher(scores: seq<ScoreEntry>, name: string)
    requires UniqueNames(scores) && |scores| < ScoreboardCap && name !in NameSet(scores)
    ensures var r := SavedScores(SavedScores(scores, 100, name), 200, name);
      ScoreEntry(name, 200) in r && forall e :: e in r && e.name == name ==> e.score == 200
  {
    SavedScoresKeepsBest(scores, 100, name);
    SavedScoresUnique(scores, 100, name);
    var once := SavedScores(scores, 100, name);
    assert ScoreEntry(name, 100) in once;
    assert name in NameSet(once);
    assert |once| <= ScoreboardCap;
    SavedScoresKeepsBest(once, 200, name);
    var i := FindByName(once, name).value;
    assert once[i] in once;
  }
}
