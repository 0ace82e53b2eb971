/**
 * The high-score table update of the app shell (App.tsx:90-98): append the new
 * entry, sort by score from highest to lowest with a stable sort, keep the first
 * `maxHighScores` entries.
 */
module HighScores {

  /** One row of the table; `date` is the ISO timestamp the caller supplies. */
  datatype Entry = Entry(score: int, date: string)

  predicate SortedDesc(s: seq<Entry>)
  {
    forall i, j :: 0 <= i < j < |s| ==> s[i].score >= s[j].score
  }

  /** The entries of `s` whose score is `v`, in their order in `s`. */
  function WithScore(s: seq<Entry>, v: int): seq<Entry>
  {
    if s == [] then []
    else (if s[0].score == v then [s[0]] else []) + WithScore(s[1..], v)
  }

  /**
   * Insertion of `e` into a descending list: `e` goes after every leading entry
   * whose score is at least its own, so among equal scores the earlier entry
   * stays first.
   */
  function Insert(s: seq<Entry>, e: Entry): seq<Entry>
  {
    if s == [] then [e]
    else if s[0].score >= e.score then [s[0]] + Insert(s[1..], e)
    else [e] + s
  }

  /** The number of leading entries of `s` whose score is at least `e.score`. */
  function InsertionPoint(s: seq<Entry>, e: Entry): (k: nat)
    ensures k <= |s|
  {
    if s == [] || s[0].score < e.score then 0
    else 1 + InsertionPoint(s[1..], e)
  }

  /**
   * `Array.prototype.sort` with comparator `b.score - a.score`: a stable sort by
   * descending score, written as an insertion sort that inserts each element, in
   * order, into the sorted prefix before it.
   */
  function SortDesc(s: seq<Entry>): seq<Entry>
  {
    if s == [] then [] else Insert(SortDesc(s[..|s| - 1]), s[|s| - 1])
  }

  /** `slice(0, n)`. */
  function Take(s: seq<Entry>, n: nat): (r: seq<Entry>)
    ensures |r| == if n < |s| then n else |s|
    ensures forall k :: 0 <= k < |r| ==> r[k] == s[k]
  {
    if n < |s| then s[..n] else s
  }

  /** `[...highScores, newEntry].sort((a, b) => b.score - a.score).slice(0, maxHighScores)`. */
  function UpdatedHighScores(highScores: seq<Entry>, newEntry: Entry, maxHighScores: nat): seq<Entry>
  {
    Take(SortDesc(highScores + [newEntry]), maxHighScores)
  }

  // ---------------------------------------------------------------------------
  // Insertion

  /** Insertion puts `e` at its insertion point. */
  lemma {:induction false} InsertAt(s: seq<Entry>, e: Entry)
    ensures var k := InsertionPoint(s, e);
            Insert(s, e) == s[..k] + [e] + s[k..]
    decreases |s|
  {
    if s != [] && s[0].score >= e.score {
      InsertAt(s[1..], e);
      var k := InsertionPoint(s[1..], e);
      assert s[..k + 1] == [s[0]] + s[1..][..k];
      assert s[k + 1..] == s[1..][k..];
    }
  }

  /**
   * Every entry before the insertion point scores at least `e.score`; in a
   * descending list every entry from it on scores less.
   */
  lemma {:induction false} InsertionPointSplits(s: seq<Entry>, e: Entry)
    ensures var k := InsertionPoint(s, e);
            && (forall j :: 0 <= j < k ==> s[j].score >= e.score)
            && (SortedDesc(s) ==> forall j :: k <= j < |s| ==> s[j].score < e.score)
    decreases |s|
  {
    if s != [] && s[0].score >= e.score {
      InsertionPointSplits(s[1..], e);
      var k := InsertionPoint(s[1..], e);
      forall j | 0 <= j < k + 1 ensures s[j].score >= e.score {
        if j > 0 { assert s[j] == s[1..][j - 1]; }
      }
      if SortedDesc(s) {
        assert SortedDesc(s[1..]) by {
          forall i, j | 0 <= i < j < |s[1..]| ensures s[1..][i].score >= s[1..][j].score {
            assert s[1..][i] == s[i + 1] && s[1..][j] == s[j + 1];
          }
        }
        forall j | k + 1 <= j < |s| ensures s[j].score < e.score {
          assert s[j] == s[1..][j - 1];
        }
      }
    }
  }

  lemma InsertPermutes(s: seq<Entry>, e: Entry)
    ensures multiset(Insert(s, e)) == multiset(s) + multiset{e}
    ensures |Insert(s, e)| == |s| + 1
  {
    InsertAt(s, e);
    var k := InsertionPoint(s, e);
    assert s == s[..k] + s[k..];
    calc {
      multiset(Insert(s, e));
      multiset(s[..k] + [e] + s[k..]);
      multiset(s[..k]) + multiset{e} + multiset(s[k..]);
      multiset(s) + multiset{e};
    }
  }

  /** Inserting into a descending list keeps it descending. */
  lemma InsertSorted(s: seq<Entry>, e: Entry)
    requires SortedDesc(s)
    ensures SortedDesc(Insert(s, e))
  {
    InsertAt(s, e);
    InsertionPointSplits(s, e);
    var k := InsertionPoint(s, e);
    var r := Insert(s, e);
    assert |r| == |s| + 1;
    forall a, b | 0 <= a < b < |r| ensures r[a].score >= r[b].score {
      InsertedIndex(s, k, e, a);
      InsertedIndex(s, k, e, b);
    }
  }

  lemma InsertedIndex(s: seq<Entry>, k: nat, e: Entry, j: nat)
    requires k <= |s| && j <= |s|
    ensures (s[..k] + [e] + s[k..])[j] == if j < k then s[j] else if j == k then e else s[j - 1]
  {
  }

  /** An entry no higher than everything already in the list goes to the end. */
  lemma InsertAtEnd(s: seq<Entry>, e: Entry)
    requires forall j :: 0 <= j < |s| ==> s[j].score >= e.score
    ensures Insert(s, e) == s + [e]
  {
    InsertAt(s, e);
    InsertionPointOfSuffix(s, e);
    assert s[..|s|] == s && s[|s|..] == [];
  }

  lemma {:induction false} InsertionPointOfSuffix(s: seq<Entry>, e: Entry)
    requires forall j :: 0 <= j < |s| ==> s[j].score >= e.score
    ensures InsertionPoint(s, e) == |s|
    decreases |s|
  {
    if s != [] {
      InsertionPointOfSuffix(s[1..], e);
    }
  }

  lemma {:induction false} WithScoreAppend(a: seq<Entry>, b: seq<Entry>, v: int)
    ensures WithScore(a + b, v) == WithScore(a, v) + WithScore(b, v)
    decreases |a|
  {
    if a != [] {
      assert (a + b)[0] == a[0] && (a + b)[1..] == a[1..] + b;
      WithScoreAppend(a[1..], b, v);
      var h := if a[0].score == v then [a[0]] else [];
      assert WithScore(a + b, v) == h + (WithScore(a[1..], v) + WithScore(b, v));
    } else {
      assert a + b == b;
    }
  }

  lemma {:induction false} WithScoreNone(s: seq<Entry>, v: int)
    requires forall j :: 0 <= j < |s| ==> s[j].score < v
    ensures WithScore(s, v) == []
    decreases |s|
  {
    if s != [] {
      WithScoreNone(s[1..], v);
    }
  }

  /** Insertion puts `e` after every entry of the same score already there. */
  lemma {:induction false} InsertStable(s: seq<Entry>, e: Entry, v: int)
    requires SortedDesc(s)
    ensures WithScore(Insert(s, e), v) == WithScore(s, v) + WithScore([e], v)
  {
    InsertAt(s, e);
    InsertionPointSplits(s, e);
    var k := InsertionPoint(s, e);
    WithScoreAppend(s[..k] + [e], s[k..], v);
    WithScoreAppend(s[..k], [e], v);
    WithScoreAppend(s[..k], s[k..], v);
    assert s == s[..k] + s[k..];
    if e.score == v {
      WithScoreNone(s[k..], v);
    } else {
      assert WithScore([e], v) == [];
    }
  }

  // ---------------------------------------------------------------------------
  // The sort

  /**
   * The sort is a stable descending sort: the result is descending, is a
   * permutation of the input, and keeps the input order among entries with equal
   * scores.
   */
  lemma {:induction false} SortDescIsStableSort(s: seq<Entry>)
    ensures SortedDesc(SortDesc(s))
    ensures multiset(SortDesc(s)) == multiset(s)
    ensures forall v :: WithScore(SortDesc(s), v) == WithScore(s, v)
    decreases |s|
  {
    if s != [] {
      var init := s[..|s| - 1];
      var last := s[|s| - 1];
      assert s == init + [last];
      SortDescIsStableSort(init);
      InsertSorted(SortDesc(init), last);
      InsertPermutes(SortDesc(init), last);
      forall v ensures WithScore(SortDesc(s), v) == WithScore(s, v) {
        InsertStable(SortDesc(init), last, v);
        WithScoreAppend(init, [last], v);
      }
    }
  }

  /** A list that is already descending is left as it is. */
  lemma {:induction false} SortDescOfSorted(s: seq<Entry>)
    requires SortedDesc(s)
    ensures SortDesc(s) == s
    decreases |s|
  {
    if s != [] {
      var init := s[..|s| - 1];
      assert SortedDesc(init);
      SortDescOfSorted(init);
      InsertAtEnd(init, s[|s| - 1]);
      assert init + [s[|s| - 1]] == s;
    }
  }

  // ---------------------------------------------------------------------------
  // The update

  /**
   * The updated table is descending, has min(|highScores| + 1, maxHighScores)
   * rows, and every row is an old row or the new entry.
   */
  lemma UpdatedHighScoresShape(highScores: seq<Entry>, newEntry: Entry, maxHighScores: nat)
    ensures var r := UpdatedHighScores(highScores, newEntry, maxHighScores);
            && SortedDesc(r)
            && |r| == (if maxHighScores < |highScores| + 1 then maxHighScores else |highScores| + 1)
            && multiset(r) <= multiset(highScores) + multiset{newEntry}
            && forall k :: 0 <= k < |r| ==> r[k] in highScores || r[k] == newEntry
  {
    var all := highScores + [newEntry];
    SortDescIsStableSort(all);
    var sorted := SortDesc(all);
    var r := Take(sorted, maxHighScores);
    assert sorted == r + sorted[|r|..];
    assert multiset(r) <= multiset(sorted);
    forall k | 0 <= k < |r| ensures r[k] in highScores || r[k] == newEntry {
      assert r[k] in multiset(all);
    }
  }

  /**
   * On a table that is already descending, the update inserts the new entry after
   * every row whose score is at least its own, then truncates.
   */
  lemma UpdateOfSortedTable(highScores: seq<Entry>, newEntry: Entry, maxHighScores: nat)
    requires SortedDesc(highScores)
    ensures var k := InsertionPoint(highScores, newEntry);
            && UpdatedHighScores(highScores, newEntry, maxHighScores)
               == Take(highScores[..k] + [newEntry] + highScores[k..], maxHighScores)
            && (forall j :: 0 <= j < k ==> highScores[j].score >= newEntry.score)
            && (forall j :: k <= j < |highScores| ==> highScores[j].score < newEntry.score)
  {
    var all := highScores + [newEntry];
    assert all[..|all| - 1] == highScores;
    SortDescOfSorted(highScores);
    InsertAt(highScores, newEntry);
    InsertionPointSplits(highScores, newEntry);
  }

  /** The first row of a non-empty updated table has the highest score of all old rows and the new entry. */
  lemma UpdatedHighScoresTop(highScores: seq<Entry>, newEntry: Entry, maxHighScores: nat)
    requires maxHighScores > 0
    ensures var r := UpdatedHighScores(highScores, newEntry, maxHighScores);
            && |r| > 0
            && r[0].score >= newEntry.score
            && forall k :: 0 <= k < |highScores| ==> r[0].score >= highScores[k].score
  {
    var all := highScores + [newEntry];
    SortDescIsStableSort(all);
    var sorted := SortDesc(all);
    forall x | x in all ensures sorted[0].score >= x.score {
      assert x in multiset(sorted);
      var j :| 0 <= j < |sorted| && sorted[j] == x;
    }
    assert newEntry in all && forall k :: 0 <= k < |highScores| ==> highScores[k] in all;
  }
}
