/**
 * Row selection as `df[mask]` and `.head(k)` perform it: the rows whose mask
 * entry is true, kept with their index labels and in dataset order, then the
 * first `k` of them.
 */
module NameSearch {
  import opened Frame
  import opened Text

  /** Some entry of `m` carries index label `i`. */
  predicate Listed(m: seq<Indexed>, i: nat)
  {
    exists a :: 0 <= a < |m| && m[a].index == i
  }

  /** `rows[mask]` with the mask `hit`, indices counted from the start of `rows`. */
  function Matches(rows: seq<Row>, hit: Row -> bool): (m: seq<Indexed>)
    ensures |m| <= |rows|
    ensures forall a :: 0 <= a < |m| ==> m[a].index < |rows| && m[a].row == rows[m[a].index] && hit(m[a].row)
    ensures forall a, b :: 0 <= a < b < |m| ==> m[a].index < m[b].index
  {
    if rows == [] then []
    else
      var n := |rows| - 1;
      var front := Matches(rows[..n], hit);
      assert forall a :: 0 <= a < |front| ==> front[a].index < n && front[a].row == rows[front[a].index];
      front + (if hit(rows[n]) then [Indexed(n, rows[n])] else [])
  }

  /** Every row whose mask entry is true is selected. */
  lemma {:induction false} MatchesComplete(rows: seq<Row>, hit: Row -> bool, i: nat)
    requires i < |rows| && hit(rows[i])
    ensures Listed(Matches(rows, hit), i)
  {
    var n := |rows| - 1;
    var m := Matches(rows, hit);
    if i == n {
      assert m[|m| - 1].index == n;
    } else {
      assert rows[..n][i] == rows[i];
      MatchesComplete(rows[..n], hit, i);
      var front := Matches(rows[..n], hit);
      var a :| 0 <= a < |front| && front[a].index == i;
      assert m[a] == front[a];
    }
  }

  /** A row is selected exactly when its mask entry is true. */
  lemma MatchesExactly(rows: seq<Row>, hit: Row -> bool, i: nat)
    requires i < |rows|
    ensures Listed(Matches(rows, hit), i) <==> hit(rows[i])
  {
    var m := Matches(rows, hit);
    if Listed(m, i) {
      var a :| 0 <= a < |m| && m[a].index == i;
    } else if hit(rows[i]) {
      MatchesComplete(rows, hit, i);
    }
  }

  /** `.head(k)`: the first `k` entries, or all of them when there are fewer. */
  function Head<T>(s: seq<T>, k: nat): (h: seq<T>)
    ensures |h| == MinNat(k, |s|)
    ensures h <= s
  {
    s[..MinNat(k, |s|)]
  }

  /** Taking the first `j` of the first `k` is taking the first `j`, for `j <= k`. */
  lemma HeadOfHead<T>(s: seq<T>, j: nat, k: nat)
    requires j <= k
    ensures Head(Head(s, k), j) == Head(s, j)
  {
  }

  /**
   * The first `k` matches are matches, in dataset order, and a matching row
   * is left out only when `k` earlier matches were kept.
   */
  lemma HeadOfMatches(rows: seq<Row>, hit: Row -> bool, k: nat)
    requires 1 <= k
    ensures var h := Head(Matches(rows, hit), k);
      && (forall a :: 0 <= a < |h| ==> h[a].index < |rows| && h[a].row == rows[h[a].index] && hit(h[a].row))
      && (forall a, b :: 0 <= a < b < |h| ==> h[a].index < h[b].index)
      && (forall i :: 0 <= i < |rows| && hit(rows[i]) && !Listed(h, i) ==> |h| == k && h[k - 1].index < i)
  {
    var m := Matches(rows, hit);
    var h := Head(m, k);
    forall i | 0 <= i < |rows| && hit(rows[i]) && !Listed(h, i) ensures |h| == k && h[k - 1].index < i {
      MatchesExactly(rows, hit, i);
      var a :| 0 <= a < |m| && m[a].index == i;
      assert a >= |h|;
      assert h[k - 1] == m[k - 1];
    }
  }

  /**
   * A name matches the server search when its lower-cased form contains the
   * (already normalised) query at some position; a missing name never matches.
   */
  predicate LowerNameHit(q: string, row: Row): (hit: bool)
    ensures hit <==> row.name.Some? && exists k :: OccursAt(Lower(row.name.value), q, k)
  {
    if row.name.None? then false
    else
      ContainsAt(Lower(row.name.value), q);
      if Contains(Lower(row.name.value), q) then
        assert exists k :: OccursAt(Lower(row.name.value), q, k);
        true
      else
        assert forall k :: !OccursAt(Lower(row.name.value), q, k);
        false
  }

  /**
   * A name matches the CLI search when it contains the query, both
   * lower-cased: the server's test on the lower-cased query. The empty query
   * matches every named dish.
   */
  predicate NameHit(query: string, row: Row): (hit: bool)
    ensures hit <==> LowerNameHit(Lower(query), row)
    ensures row.name.Some? && query == [] ==> hit
  {
    row.name.Some? && Contains(Lower(row.name.value), Lower(query))
  }

  /**
   * The CLI mask on a query selects the rows the server mask selects on the
   * lower-cased query. Row by row the two tests agree by `NameHit`'s
   * contract; the induction lifts that to the selected rows.
   */
  lemma {:induction false} HitsAgree(query: string, rows: seq<Row>)
    ensures Matches(rows, row => NameHit(query, row)) == Matches(rows, row => LowerNameHit(Lower(query), row))
  {
    if rows != [] {
      HitsAgree(query, rows[..|rows| - 1]);
    }
  }
}
