/**
 * Ranking dataset rows by their distance to a query vector. Distances are
 * squared Euclidean distances: the square root is monotone, so the order is
 * the same as with the true distance.
 */
module Ranking {
  import opened Frame

  function Square(x: real): (r: real)
    ensures r >= 0.0
  {
    x * x
  }

  lemma PositiveSquare(y: real)
    requires y > 0.0
    ensures y * y > 0.0
  {
  }

  /** Only a zero difference squares to zero. */
  lemma SquarePositive(x: real)
    requires x != 0.0
    ensures Square(x) > 0.0
  {
    if x > 0.0 {
      calc { Square(x); == x * x; > { PositiveSquare(x); } 0.0; }
    } else {
      calc { Square(x); == (-x) * (-x); > { PositiveSquare(-x); } 0.0; }
    }
  }

  /** The squared Euclidean distance between two vectors of the same length. */
  function SqDist(a: seq<real>, b: seq<real>): (d: real)
    requires |a| == |b|
    ensures d >= 0.0
    ensures d == 0.0 <==> a == b
  {
    if |a| == 0 then 0.0
    else
      assert a == [a[0]] + a[1..] && b == [b[0]] + b[1..];
      if a[0] != b[0] then
        SquarePositive(a[0] - b[0]);
        Square(a[0] - b[0]) + SqDist(a[1..], b[1..])
      else
        Square(a[0] - b[0]) + SqDist(a[1..], b[1..])
  }

  /** The distance of the query `x` to every row, in dataset order, reading the row in `features` order. */
  function Distances(rows: seq<Row>, features: seq<string>, x: seq<real>): (ds: seq<real>)
    requires |x| == |features|
    ensures |ds| == |rows|
    ensures forall i :: 0 <= i < |rows| ==> ds[i] == SqDist(x, Vector(rows[i], features))
  {
    seq(|rows|, i requires 0 <= i < |rows| => SqDist(x, Vector(rows[i], features)))
  }

  /**
   * Row `i` comes before row `j`: it is strictly closer, or as close and
   * earlier in the dataset (the tie rule of `nsmallest(keep='first')`).
   */
  predicate Before(ds: seq<real>, i: nat, j: nat)
  {
    i < |ds| && j < |ds| && (ds[i] < ds[j] || (ds[i] == ds[j] && i < j))
  }

  /** `r` lists rows strictly in `Before` order. */
  ghost predicate Ranked(ds: seq<real>, r: seq<nat>)
  {
    forall a, b :: 0 <= a < b < |r| ==> Before(ds, r[a], r[b])
  }

  /** Inserts row `i` into `s` behind every row that is at most as far. */
  function Insert(ds: seq<real>, i: nat, s: seq<nat>): (r: seq<nat>)
    ensures |r| == |s| + 1
    ensures multiset(r) == multiset(s) + multiset{i}
  {
    if s == [] then [i]
    else if i < |ds| && s[0] < |ds| && ds[i] < ds[s[0]] then [i] + s
    else
      assert s == [s[0]] + s[1..];
      [s[0]] + Insert(ds, i, s[1..])
  }

  lemma InsertMembers(ds: seq<real>, i: nat, s: seq<nat>)
    ensures forall x :: x in Insert(ds, i, s) <==> x in s || x == i
  {
    var r := Insert(ds, i, s);
    forall x ensures x in r <==> x in s || x == i {
      assert x in r <==> x in multiset(r);
      assert x in s <==> x in multiset(s);
    }
  }

  /** Inserting a row later than all ranked rows keeps the ranking strict. */
  lemma {:induction false} InsertRanked(ds: seq<real>, i: nat, s: seq<nat>)
    requires i < |ds| && Ranked(ds, s)
    requires forall a :: 0 <= a < |s| ==> s[a] < i
    ensures Ranked(ds, Insert(ds, i, s))
  {
    if s != [] {
      if ds[i] < ds[s[0]] {
        var r := [i] + s;
        forall a, b | 0 <= a < b < |r| ensures Before(ds, r[a], r[b]) {
          if a == 0 && b > 1 {
            assert Before(ds, s[0], s[b - 1]);
          }
        }
      } else {
        var tail := Insert(ds, i, s[1..]);
        InsertRanked(ds, i, s[1..]);
        var r := [s[0]] + tail;
        forall a, b | 0 <= a < b < |r| ensures Before(ds, r[a], r[b]) {
          if a == 0 {
            var x := tail[b - 1];
            assert x in multiset(tail);
            assert x in multiset(s[1..]) || x == i;
            if x != i {
              var c :| 0 <= c < |s[1..]| && s[1..][c] == x;
              assert Before(ds, s[0], s[c + 1]);
            }
          }
        }
      }
    }
  }

  /**
   * The rows 0..n-1 sorted by distance, ties in dataset order: what
   * `nsmallest(n, 'distance')` returns with its default `keep='first'`.
   */
  function StableOrder(ds: seq<real>, n: nat): (r: seq<nat>)
    requires n <= |ds|
    ensures |r| == n
    ensures forall x :: x in r <==> 0 <= x < n
    ensures Ranked(ds, r)
  {
    if n == 0 then []
    else
      var s := StableOrder(ds, n - 1);
      assert forall a :: 0 <= a < |s| ==> s[a] in s;
      InsertRanked(ds, n - 1, s);
      InsertMembers(ds, n - 1, s);
      Insert(ds, n - 1, s)
  }

  /** The `k` nearest rows, nearest first, ties in dataset order. */
  function NSmallest(ds: seq<real>, k: nat): (idx: seq<nat>)
    ensures |idx| == MinNat(k, |ds|)
    ensures forall a :: 0 <= a < |idx| ==> idx[a] < |ds|
    ensures forall a, b :: 0 <= a < b < |idx| ==> Before(ds, idx[a], idx[b])
  {
    var full := StableOrder(ds, |ds|);
    assert forall a :: 0 <= a < |full| ==> full[a] in full;
    full[..MinNat(k, |ds|)]
  }

  /**
   * `idx` holds min(k, n) distinct rows in strict `Before` order, and every
   * row it leaves out comes after each row it holds.
   */
  ghost predicate StableSmallest(ds: seq<real>, idx: seq<nat>, k: nat)
  {
    && |idx| == MinNat(k, |ds|)
    && (forall a :: 0 <= a < |idx| ==> idx[a] < |ds|)
    && Ranked(ds, idx)
    && (forall j, a :: 0 <= j < |ds| && j !in idx && 0 <= a < |idx| ==> Before(ds, idx[a], j))
  }

  lemma NSmallestIsStableSmallest(ds: seq<real>, k: nat)
    ensures StableSmallest(ds, NSmallest(ds, k), k)
  {
    var full := StableOrder(ds, |ds|);
    var idx := NSmallest(ds, k);
    forall a | 0 <= a < |idx| ensures idx[a] < |ds| {
      assert idx[a] == full[a] && full[a] in full;
    }
    forall j, a | 0 <= j < |ds| && j !in idx && 0 <= a < |idx| ensures Before(ds, idx[a], j) {
      assert j in full;
      var p :| 0 <= p < |full| && full[p] == j;
      assert p >= |idx|;
    }
  }

  /**
   * With non-negative distances, a row at distance 0 makes the first selected
   * row one at distance 0, and no earlier row is at distance 0.
   */
  lemma ExactMatchFirst(ds: seq<real>, idx: seq<nat>, k: nat, j: nat)
    requires StableSmallest(ds, idx, k) && 1 <= k
    requires forall i :: 0 <= i < |ds| ==> ds[i] >= 0.0
    requires j < |ds| && ds[j] == 0.0
    ensures |idx| >= 1 && ds[idx[0]] == 0.0
    ensures forall i :: 0 <= i < idx[0] ==> ds[i] != 0.0
  {
    if j != idx[0] {
      if j in idx {
        var c :| 0 <= c < |idx| && idx[c] == j;
        assert Before(ds, idx[0], idx[c]);
      }
    }
    forall i | 0 <= i < idx[0] ensures ds[i] != 0.0 {
      if i in idx {
        var c :| 0 <= c < |idx| && idx[c] == i;
        assert c != 0;
        assert Before(ds, idx[0], idx[c]);
      } else {
        assert Before(ds, idx[0], i);
      }
    }
  }

  /** What NumPy promises of `argsort`: a permutation that lists the values in non-decreasing order. */
  ghost predicate IsArgsortOf(order: seq<nat>, ds: seq<real>)
  {
    && |order| == |ds|
    && (forall a :: 0 <= a < |order| ==> order[a] < |ds|)
    && (forall a, b :: 0 <= a < b < |order| ==> order[a] != order[b])
    && (forall j :: 0 <= j < |ds| ==> j in order)
    && (forall a, b :: 0 <= a < b < |order| ==> ds[order[a]] <= ds[order[b]])
  }

  /** A strict ranking is repetition-free and non-decreasing in distance. */
  lemma RankedIsSorted(ds: seq<real>, r: seq<nat>)
    requires Ranked(ds, r)
    ensures forall a, b :: 0 <= a < b < |r| ==> r[a] != r[b] && ds[r[a]] <= ds[r[b]]
  {
    forall a, b | 0 <= a < b < |r| ensures r[a] != r[b] && ds[r[a]] <= ds[r[b]] {
      assert Before(ds, r[a], r[b]);
    }
  }

  /** The stable order is one admissible result of `argsort`. */
  lemma StableOrderIsArgsort(ds: seq<real>)
    ensures IsArgsortOf(StableOrder(ds, |ds|), ds)
  {
    var r := StableOrder(ds, |ds|);
    RankedIsSorted(ds, r);
    forall j | 0 <= j < |ds| ensures j in r {
    }
    forall a | 0 <= a < |r| ensures r[a] < |ds| {
      assert r[a] in r;
    }
  }

  /**
   * Ties in any order: the first m entries of an argsort are m nearest rows.
   * They are in non-decreasing order and no row left out is nearer.
   */
  lemma ArgsortPrefixIsNearest(ds: seq<real>, order: seq<nat>, m: nat)
    requires IsArgsortOf(order, ds) && m <= |order|
    ensures forall a, b :: 0 <= a < b < m ==> ds[order[a]] <= ds[order[b]]
    ensures forall j, a :: 0 <= j < |ds| && j !in order[..m] && 0 <= a < m ==> ds[order[a]] <= ds[j]
  {
    forall j, a | 0 <= j < |ds| && j !in order[..m] && 0 <= a < m ensures ds[order[a]] <= ds[j] {
      assert j in order;
      var p :| 0 <= p < |order| && order[p] == j;
    }
  }
}
