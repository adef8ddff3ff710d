/**
 * The leaderboard store shared by every game: read the stored list of
 * {name, score} records, add the round's record, sort by score with the
 * game's comparator, keep a prefix of at most `cap` records.
 *
 * The sort is the platform's stable sort driven by a comparator on scores.
 * It is modelled by `SortStable`, an insertion sort whose recursion peels the
 * LAST element, so sorting `board + [e]` is inserting `e` into the sorted
 * `board` after every record whose score ranks at least as well.
 * `SortStable` is proved to be sorted, a permutation, stable (records with
 * equal scores keep their relative order) and the only sequence with those
 * three properties.
 */
module Leaderboard {

  /** One stored record. The optional date of the source is not modelled. */
  datatype Entry = Entry(name: string, score: int)

  /** The comparator of a game: more is better, or fewer is better. */
  datatype Order = Descending | Ascending

  /** A record with score `a` may stand before one with score `b`. */
  predicate RanksAtLeast(order: Order, a: int, b: int)
  {
    match order
    case Descending => a >= b
    case Ascending => a <= b
  }

  predicate Sorted(order: Order, s: seq<Entry>)
  {
    forall i, j :: 0 <= i < j < |s| ==> RanksAtLeast(order, s[i].score, s[j].score)
  }

  /** The records of `s` whose score is `v`, in order. */
  function WithScore(s: seq<Entry>, v: int): (r: seq<Entry>)
    ensures |r| <= |s|
  {
    if s == [] then []
    else (if s[0].score == v then [s[0]] else []) + WithScore(s[1..], v)
  }

  lemma {:induction false} WithScoreMembers(s: seq<Entry>, v: int)
    ensures forall x :: x in WithScore(s, v) ==> x in s && x.score == v
  {
    if s != [] {
      WithScoreMembers(s[1..], v);
    }
  }

  lemma HeadLeadsItsGroup(s: seq<Entry>)
    ensures s != [] ==> WithScore(s, s[0].score) != [] && WithScore(s, s[0].score)[0] == s[0]
  {
  }

  /** Same-score records appear in `r` in the order they have in `s`. */
  ghost predicate KeepsTies(r: seq<Entry>, s: seq<Entry>)
  {
    forall v :: WithScore(r, v) == WithScore(s, v)
  }

  /** How many records of `s` rank at least as well as score `v`. */
  function CountAtLeast(order: Order, s: seq<Entry>, v: int): (n: nat)
    ensures n <= |s|
  {
    if s == [] then 0
    else (if RanksAtLeast(order, s[0].score, v) then 1 else 0) + CountAtLeast(order, s[1..], v)
  }

  /** Insert `e` after every leading record that ranks at least as well. */
  function Insert(order: Order, s: seq<Entry>, e: Entry): (r: seq<Entry>)
    ensures |r| == |s| + 1
  {
    if s == [] then [e]
    else if RanksAtLeast(order, s[0].score, e.score) then
      [s[0]] + Insert(order, s[1..], e)
    else [e] + s
  }

  /** The stable sort of `s` by the comparator of `order`. */
  function SortStable(order: Order, s: seq<Entry>): (r: seq<Entry>)
    ensures |r| == |s|
  {
    if s == [] then []
    else Insert(order, SortStable(order, s[..|s| - 1]), s[|s| - 1])
  }

  /** `slice(0, cap)` */
  function Take(s: seq<Entry>, cap: nat): (r: seq<Entry>)
    ensures |r| <= cap && |r| <= |s|
    ensures |r| == |s| || |r| == cap
    ensures r == s[..|r|]
  {
    if |s| <= cap then s else s[..cap]
  }

  /** Push the round's record, sort, keep at most `cap` records. */
  function Submit(order: Order, cap: nat, board: seq<Entry>, e: Entry): (r: seq<Entry>)
    ensures |r| <= cap
    ensures |r| == if |board| + 1 <= cap then |board| + 1 else cap
  {
    Take(SortStable(order, board + [e]), cap)
  }

  /** The "high score" shown beside a descending board: its first score, else 0. */
  function TopScore(board: seq<Entry>): (r: int)
    ensures board == [] ==> r == 0
    ensures Sorted(Descending, board) ==> forall x :: x in board ==> x.score <= r
    ensures board != [] ==> exists x :: x in board && x.score == r
  {
    if board == [] then 0
    else
      assert board[0] in board;
      assert Sorted(Descending, board) ==> forall x :: x in board ==> x.score <= board[0].score by {
        if Sorted(Descending, board) {
          forall x | x in board ensures x.score <= board[0].score {
            var i :| 0 <= i < |board| && board[i] == x;
          }
        }
      }
      board[0].score
  }

  // ---------------------------------------------------------------------
  // Insert

  /** Insert adds exactly the new record. */
  lemma {:induction false} InsertPermutes(order: Order, s: seq<Entry>, e: Entry)
    ensures multiset(Insert(order, s, e)) == multiset(s) + multiset{e}
  {
    if s != [] && RanksAtLeast(order, s[0].score, e.score) {
      InsertPermutes(order, s[1..], e);
      assert s == [s[0]] + s[1..];
    }
  }

  lemma {:induction false} InsertSorted(order: Order, s: seq<Entry>, e: Entry)
    requires Sorted(order, s)
    ensures Sorted(order, Insert(order, s, e))
  {
    if s == [] {
    } else if RanksAtLeast(order, s[0].score, e.score) {
      var t := Insert(order, s[1..], e);
      SortedTail(order, s);
      InsertSorted(order, s[1..], e);
      InsertPermutes(order, s[1..], e);
      forall x | x in t ensures RanksAtLeast(order, s[0].score, x.score) {
        assert x in multiset(t);
        assert x in s[1..] || x == e;
      }
      SortedCons(order, s[0], t);
    } else {
      forall x | x in s ensures RanksAtLeast(order, e.score, x.score) {
        var i :| 0 <= i < |s| && s[i] == x;
        assert i == 0 || RanksAtLeast(order, s[0].score, x.score);
      }
      SortedCons(order, e, s);
    }
  }

  /** A sorted sequence stays sorted under a head that ranks at least every element. */
  lemma SortedCons(order: Order, x: Entry, t: seq<Entry>)
    requires Sorted(order, t) && forall y :: y in t ==> RanksAtLeast(order, x.score, y.score)
    ensures Sorted(order, [x] + t)
  {
    var s := [x] + t;
    forall i, j | 0 <= i < j < |s| ensures RanksAtLeast(order, s[i].score, s[j].score) {
      assert s[j] == t[j - 1];
      if i == 0 {
        assert t[j - 1] in t;
      } else {
        assert s[i] == t[i - 1];
      }
    }
  }

  /** In a sorted board the records that rank at least as well as `v` form a prefix. */
  lemma {:induction false} NoneAtLeastAfterWorse(order: Order, s: seq<Entry>, v: int)
    requires Sorted(order, s) && s != [] && !RanksAtLeast(order, s[0].score, v)
    ensures CountAtLeast(order, s, v) == 0
    ensures forall x :: x in s ==> !RanksAtLeast(order, x.score, v)
  {
    forall x | x in s ensures !RanksAtLeast(order, x.score, v) {
      var i :| 0 <= i < |s| && s[i] == x;
      assert i == 0 || RanksAtLeast(order, s[0].score, x.score);
    }
    if |s| > 1 {
      NoneAtLeastAfterWorse(order, s[1..], v);
    }
  }

  /**
   * Into a sorted board the new record lands at index k, the number of
   * records that rank at least as well as it; everything else keeps its place.
   */
  lemma {:induction false} InsertAt(order: Order, s: seq<Entry>, e: Entry)
    requires Sorted(order, s)
    ensures var k := CountAtLeast(order, s, e.score);
      Insert(order, s, e) == s[..k] + [e] + s[k..]
  {
    if s == [] {
    } else if RanksAtLeast(order, s[0].score, e.score) {
      SortedTail(order, s);
      InsertAt(order, s[1..], e);
      var k := CountAtLeast(order, s[1..], e.score);
      assert CountAtLeast(order, s, e.score) == k + 1;
      SpliceCons(s, k, e);
    } else {
      NoneAtLeastAfterWorse(order, s, e.score);
      assert s[..0] + [e] + s[0..] == [e] + s;
    }
  }

  /** Splicing into the tail of a sequence is splicing one place further into the whole. */
  lemma SpliceCons(s: seq<Entry>, k: nat, e: Entry)
    requires s != [] && k < |s|
    ensures [s[0]] + (s[1..][..k] + [e] + s[1..][k..]) == s[..k + 1] + [e] + s[k + 1..]
  {
    assert s[..k + 1] == [s[0]] + s[1..][..k];
    assert s[k + 1..] == s[1..][k..];
  }

  /** A record that ranks no better than every record goes to the end. */
  lemma {:induction false} InsertAtEnd(order: Order, s: seq<Entry>, e: Entry)
    requires forall x :: x in s ==> RanksAtLeast(order, x.score, e.score)
    ensures Insert(order, s, e) == s + [e]
  {
    if s != [] {
      assert s[0] in s;
      InsertAtEnd(order, s[1..], e);
      assert s == [s[0]] + s[1..];
    }
  }

  lemma {:induction false} WithScoreAppend(s: seq<Entry>, t: seq<Entry>, v: int)
    ensures WithScore(s + t, v) == WithScore(s, v) + WithScore(t, v)
  {
    if s == [] {
      assert s + t == t;
    } else {
      var h := if s[0].score == v then [s[0]] else [];
      assert (s + t)[0] == s[0];
      assert (s + t)[1..] == s[1..] + t;
      WithScoreAppend(s[1..], t, v);
      assert WithScore(s + t, v) == h + WithScore(s[1..] + t, v);
      assert WithScore(s, v) == h + WithScore(s[1..], v);
    }
  }

  lemma {:induction false} WithScoreNone(s: seq<Entry>, v: int)
    requires forall x :: x in s ==> x.score != v
    ensures WithScore(s, v) == []
  {
    if s != [] {
      assert s[0] in s;
      WithScoreNone(s[1..], v);
    }
  }

  /** Insert is stable: `e` joins its score group behind the records already there. */
  lemma {:induction false} InsertKeepsTies(order: Order, s: seq<Entry>, e: Entry, v: int)
    requires Sorted(order, s)
    ensures WithScore(Insert(order, s, e), v)
         == WithScore(s, v) + (if e.score == v then [e] else [])
  {
    if s == [] {
    } else if RanksAtLeast(order, s[0].score, e.score) {
      SortedTail(order, s);
      var t := Insert(order, s[1..], e);
      InsertKeepsTies(order, s[1..], e, v);
      WithScoreCons(s[0], t, v);
    } else {
      NoneAtLeastAfterWorse(order, s, e.score);
      if e.score == v {
        WithScoreNone(s, v);
      }
      WithScoreCons(e, s, v);
    }
  }

  lemma WithScoreCons(x: Entry, t: seq<Entry>, v: int)
    ensures WithScore([x] + t, v) == (if x.score == v then [x] else []) + WithScore(t, v)
  {
    assert ([x] + t)[1..] == t;
  }

  // ---------------------------------------------------------------------
  // SortStable: sorted, stable, unique; the identity on a sorted board

  /** The sort is a permutation. */
  lemma {:induction false} SortStablePermutes(order: Order, s: seq<Entry>)
    ensures multiset(SortStable(order, s)) == multiset(s)
  {
    if s != [] {
      var init, last := s[..|s| - 1], s[|s| - 1];
      SortStablePermutes(order, init);
      InsertPermutes(order, SortStable(order, init), last);
      assert multiset(s) == multiset(init) + multiset{last} by {
        assert s == init + [last];
      }
    }
  }

  lemma {:induction false} SortStableSorted(order: Order, s: seq<Entry>)
    ensures Sorted(order, SortStable(order, s))
  {
    if s != [] {
      SortStableSorted(order, s[..|s| - 1]);
      InsertSorted(order, SortStable(order, s[..|s| - 1]), s[|s| - 1]);
    }
  }

  lemma {:induction false} SortStableKeepsTies(order: Order, s: seq<Entry>)
    ensures KeepsTies(SortStable(order, s), s)
  {
    if s != [] {
      var init, last := s[..|s| - 1], s[|s| - 1];
      SortStableKeepsTies(order, init);
      SortStableSorted(order, init);
      forall v ensures WithScore(SortStable(order, s), v) == WithScore(s, v) {
        InsertKeepsTies(order, SortStable(order, init), last, v);
        assert s == init + [last];
        WithScoreAppend(init, [last], v);
      }
    }
  }

  lemma SortedTail(order: Order, s: seq<Entry>)
    requires Sorted(order, s) && s != []
    ensures Sorted(order, s[1..])
    ensures forall x :: x in s[1..] ==> RanksAtLeast(order, s[0].score, x.score)
  {
    forall x | x in s[1..] ensures RanksAtLeast(order, s[0].score, x.score) {
      var i :| 0 <= i < |s[1..]| && s[1..][i] == x;
      assert s[i + 1] == x;
    }
  }

  /**
   * Two sorted sequences that list each score group in the same order are
   * equal: a sorted, tie-keeping rearrangement of a list is unique.
   */
  lemma {:induction false} SortedTiesUnique(order: Order, r1: seq<Entry>, r2: seq<Entry>)
    requires Sorted(order, r1) && Sorted(order, r2)
    requires KeepsTies(r1, r2)
    ensures r1 == r2
    decreases |r1|
  {
    HeadLeadsItsGroup(r1);
    HeadLeadsItsGroup(r2);
    if r1 == [] || r2 == [] {
    } else {
      var a, b := r1[0], r2[0];
      SortedTail(order, r1);
      SortedTail(order, r2);
      // the score groups of the two heads are present in both lists
      WithScoreMembers(r1, b.score);
      WithScoreMembers(r2, a.score);
      assert WithScore(r2, b.score)[0] == b;
      assert b in WithScore(r1, b.score);
      assert RanksAtLeast(order, a.score, b.score) by {
        var i :| 0 <= i < |r1| && r1[i] == b;
        assert i == 0 || RanksAtLeast(order, r1[0].score, r1[i].score);
      }
      assert WithScore(r1, a.score)[0] == a;
      assert a in WithScore(r2, a.score);
      assert RanksAtLeast(order, b.score, a.score) by {
        var i :| 0 <= i < |r2| && r2[i] == a;
        assert i == 0 || RanksAtLeast(order, r2[0].score, r2[i].score);
      }
      assert a.score == b.score;
      assert a == b by {
        assert WithScore(r1, a.score)[0] == a;
        assert WithScore(r2, a.score)[0] == b;
      }
      forall v ensures WithScore(r1[1..], v) == WithScore(r2[1..], v) {
        var h := if a.score == v then [a] else [];
        assert WithScore(r1, v) == h + WithScore(r1[1..], v);
        assert WithScore(r2, v) == h + WithScore(r2[1..], v);
        assert WithScore(r1[1..], v) == (h + WithScore(r1[1..], v))[|h|..];
        assert WithScore(r2[1..], v) == (h + WithScore(r2[1..], v))[|h|..];
      }
      SortedTiesUnique(order, r1[1..], r2[1..]);
      assert r1 == [a] + r1[1..] && r2 == [b] + r2[1..];
    }
  }

  /**
   * `SortStable` is the stable sort: any sorted sequence that keeps the
   * relative order of equal-score records of `s` is `SortStable(order, s)`.
   */
  lemma SortStableIsTheStableSort(order: Order, s: seq<Entry>, r: seq<Entry>)
    requires Sorted(order, r) && KeepsTies(r, s)
    ensures r == SortStable(order, s)
  {
    SortStableSorted(order, s);
    SortStableKeepsTies(order, s);
    SortedTiesUnique(order, r, SortStable(order, s));
  }

  /** Sorting a list that is already sorted leaves it as it is. */
  lemma {:induction false} SortStableOfSorted(order: Order, s: seq<Entry>)
    requires Sorted(order, s)
    ensures SortStable(order, s) == s
  {
    if s != [] {
      var init, last := s[..|s| - 1], s[|s| - 1];
      SortStableOfSorted(order, init);
      forall x | x in init ensures RanksAtLeast(order, x.score, last.score) {
        var i :| 0 <= i < |init| && init[i] == x;
      }
      InsertAtEnd(order, init, last);
    }
  }

  // ---------------------------------------------------------------------
  // Submit

  /** The stored board is sorted and every record in it was stored before or is the new one. */
  lemma SubmitSorted(order: Order, cap: nat, board: seq<Entry>, e: Entry)
    ensures Sorted(order, Submit(order, cap, board, e))
    ensures multiset(Submit(order, cap, board, e)) <= multiset(board) + multiset{e}
  {
    var all := SortStable(order, board + [e]);
    SortStableSorted(order, board + [e]);
    SortStablePermutes(order, board + [e]);
    var r := Take(all, cap);
    assert all == r + all[|r|..];
    assert multiset(all) == multiset(r) + multiset(all[|r|..]);
  }

  /** Onto a sorted board (every board the games store is one), submitting is inserting and cutting. */
  lemma SubmitIsInsert(order: Order, cap: nat, board: seq<Entry>, e: Entry)
    requires Sorted(order, board)
    ensures Submit(order, cap, board, e) == Take(Insert(order, board, e), cap)
  {
    var all := board + [e];
    assert all[..|all| - 1] == board && all[|all| - 1] == e;
    SortStableOfSorted(order, board);
  }

  /** Counting the records that rank at least as well as `v` distributes over concatenation. */
  lemma {:induction false} CountAtLeastAppend(order: Order, s: seq<Entry>, t: seq<Entry>, v: int)
    ensures CountAtLeast(order, s + t, v) == CountAtLeast(order, s, v) + CountAtLeast(order, t, v)
  {
    if s == [] {
      assert s + t == t;
    } else {
      CountAtLeastAppend(order, s[1..], t, v);
      assert (s + t)[1..] == s[1..] + t;
    }
  }

  /** Inserting a record adds one to the count exactly when the record itself counts. */
  lemma {:induction false} CountAtLeastInsert(order: Order, s: seq<Entry>, e: Entry, v: int)
    ensures CountAtLeast(order, Insert(order, s, e), v)
         == CountAtLeast(order, s, v) + (if RanksAtLeast(order, e.score, v) then 1 else 0)
  {
    if s != [] {
      if RanksAtLeast(order, s[0].score, e.score) {
        CountAtLeastInsert(order, s[1..], e, v);
        assert ([s[0]] + Insert(order, s[1..], e))[1..] == Insert(order, s[1..], e);
      } else {
        assert ([e] + s)[1..] == s;
      }
    }
  }

  /** Sorting does not change how many records rank at least as well as `v`. */
  lemma {:induction false} CountAtLeastSortStable(order: Order, s: seq<Entry>, v: int)
    ensures CountAtLeast(order, SortStable(order, s), v) == CountAtLeast(order, s, v)
  {
    if s != [] {
      var init, last := s[..|s| - 1], s[|s| - 1];
      CountAtLeastSortStable(order, init, v);
      CountAtLeastInsert(order, SortStable(order, init), last, v);
      assert s == init + [last];
      CountAtLeastAppend(order, init, [last], v);
    }
  }

  /**
   * On ANY stored board (sorted or not) the new record is placed at index k,
   * the number of stored records that rank at least as well as it: before it
   * stand the first k records of the sorted old board, and it survives the
   * cut exactly when k < cap; otherwise the result is the old board, sorted
   * and cut, without the new record.
   */
  lemma SubmitPlacesEntry(order: Order, cap: nat, board: seq<Entry>, e: Entry)
    ensures CountAtLeast(order, board, e.score) <= |SortStable(order, board)|
    ensures PlacedAt(SortStable(order, board), e, CountAtLeast(order, board, e.score), cap,
                     Submit(order, cap, board, e))
  {
    var sorted := SortStable(order, board);
    var k := CountAtLeast(order, board, e.score);
    SubmitIsInsertSorted(order, cap, board, e);
    SortStableSorted(order, board);
    InsertAt(order, sorted, e);
    CountAtLeastSortStable(order, board, e.score);
    var placed := sorted[..k] + [e] + sorted[k..];
    assert Submit(order, cap, board, e) == Take(placed, cap);
    CutAfterPlacing(sorted, e, k, cap);
  }

  /** Submitting is inserting into the sorted old board, then cutting. */
  lemma SubmitIsInsertSorted(order: Order, cap: nat, board: seq<Entry>, e: Entry)
    ensures Submit(order, cap, board, e) == Take(Insert(order, SortStable(order, board), e), cap)
  {
    var all := board + [e];
    assert all[..|all| - 1] == board && all[|all| - 1] == e;
  }

  /**
   * On a sorted board the new record is placed at index k, the number of
   * stored records that rank at least as well as it, and it survives the cut
   * exactly when k < cap; otherwise the board is only cut to `cap`.
   */
  lemma SubmitOntoSorted(order: Order, cap: nat, board: seq<Entry>, e: Entry)
    requires Sorted(order, board)
    ensures CountAtLeast(order, board, e.score) <= |board|
    ensures PlacedAt(board, e, CountAtLeast(order, board, e.score), cap, Submit(order, cap, board, e))
  {
    SubmitPlacesEntry(order, cap, board, e);
    SortStableOfSorted(order, board);
  }

  /**
   * `r` is the list `sorted` with `e` placed at index k and then cut to
   * `cap`: when k < cap, `e` stands at index k after the first k records of
   * `sorted`, followed by as many of the rest as fit; otherwise `e` is cut
   * off and `r` is `sorted` cut to `cap`.
   */
  predicate PlacedAt(sorted: seq<Entry>, e: Entry, k: nat, cap: nat, r: seq<Entry>)
    requires k <= |sorted|
  {
    && (k < cap ==> (k < |r| && r[..k] == sorted[..k] && r[k] == e
                     && r[k + 1..] == Take(sorted[k..], cap - k - 1)))
    && (k >= cap ==> r == Take(sorted, cap))
  }

  /** Cutting a list into which `e` was placed at index k. */
  lemma CutAfterPlacing(board: seq<Entry>, e: Entry, k: nat, cap: nat)
    requires k <= |board|
    ensures PlacedAt(board, e, k, cap, Take(board[..k] + [e] + board[k..], cap))
  {
    var x := board[..k] + [e] + board[k..];
    var r := Take(x, cap);
    if k < cap {
      assert x[..k] == board[..k] && x[k] == e && x[k + 1..] == board[k..];
      if |x| > cap {
        assert r[k + 1..] == x[k + 1..cap] == board[k..][..cap - k - 1];
      }
    } else {
      assert x[..cap] == board[..cap];
    }
  }

  /** A board no longer than `cap` is a fixed point of the cut. */
  lemma TakeOfShort(s: seq<Entry>, cap: nat)
    requires |s| <= cap
    ensures Take(s, cap) == s
  {
  }

  /** After a descending submit with room for one record, the shown high score is at least the new score. */
  lemma TopScoreAfterSubmit(cap: nat, board: seq<Entry>, e: Entry)
    requires cap >= 1
    ensures TopScore(Submit(Descending, cap, board, e)) >= e.score
  {
    var all := SortStable(Descending, board + [e]);
    SortStableSorted(Descending, board + [e]);
    SortStablePermutes(Descending, board + [e]);
    assert e in multiset(all);
    var i :| 0 <= i < |all| && all[i] == e;
    assert all[0].score >= e.score;
    assert Submit(Descending, cap, board, e)[0] == all[0];
  }
}
