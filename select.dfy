/** Row selection: the WHERE clause of a query (`Filter`) and the row-count
    check the backend applies to a query that must return exactly one row
    (`Single`), with their meaning stated by row position. */
module Select {
  import opened Rows

  /** The rows of `s` that satisfy `keep`, in table order. */
  function Filter<T(!new)>(s: seq<T>, keep: T -> bool): (r: seq<T>)
    ensures |r| <= |s|
    ensures forall x :: x in r <==> x in s && keep(x)
  {
    if s == [] then []
    else (if keep(s[0]) then [s[0]] else []) + Filter(s[1..], keep)
  }

  /** No row of `s` satisfies `keep`. */
  ghost predicate NoMatch<T(!new)>(s: seq<T>, keep: T -> bool) {
    forall i :: 0 <= i < |s| ==> !keep(s[i])
  }

  /** Two different rows of `s` satisfy `keep`. */
  ghost predicate SeveralMatch<T(!new)>(s: seq<T>, keep: T -> bool) {
    exists i, j :: 0 <= i < j < |s| && keep(s[i]) && keep(s[j])
  }

  /** Row `k` is the one and only row of `s` that satisfies `keep`. */
  ghost predicate OnlyMatchAt<T(!new)>(s: seq<T>, keep: T -> bool, k: int) {
    0 <= k < |s| && keep(s[k]) && forall i :: 0 <= i < |s| && keep(s[i]) ==> i == k
  }

  /** The row-count check: no row, more than one row, or the single row. */
  function Single<T(!new)>(rows: seq<T>, none: Error, several: Error): (r: Result<T>)
    ensures r.Ok? <==> |rows| == 1
    ensures r.Ok? ==> rows == [r.value]
    ensures rows == [] ==> r == Err(none)
    ensures |rows| > 1 ==> r == Err(several)
  {
    if |rows| == 0 then Err(none)
    else if |rows| > 1 then Err(several)
    else Ok(rows[0])
  }

  lemma FilterEmpty<T(!new)>(s: seq<T>, keep: T -> bool)
    ensures Filter(s, keep) == [] <==> NoMatch(s, keep)
  {
    var r := Filter(s, keep);
    if r != [] {
      assert r[0] in r;
      var i :| 0 <= i < |s| && s[i] == r[0];
    }
    if !NoMatch(s, keep) {
      var i :| 0 <= i < |s| && keep(s[i]);
      assert s[i] in s;
      assert s[i] in r;
    }
  }

  /** Two matching rows in a non-empty table are the head and a later row,
      or two rows of the tail. */
  lemma SeveralMatchCons<T(!new)>(s: seq<T>, keep: T -> bool)
    requires s != []
    ensures SeveralMatch(s, keep) <==>
      (keep(s[0]) && !NoMatch(s[1..], keep)) || SeveralMatch(s[1..], keep)
  {
    var t := s[1..];
    if SeveralMatch(s, keep) {
      var i, j :| 0 <= i < j < |s| && keep(s[i]) && keep(s[j]);
      assert t[j - 1] == s[j];
      if i > 0 {
        assert t[i - 1] == s[i];
      }
    }
    if keep(s[0]) && !NoMatch(t, keep) {
      var j :| 0 <= j < |t| && keep(t[j]);
      assert s[j + 1] == t[j];
    }
    if SeveralMatch(t, keep) {
      var i, j :| 0 <= i < j < |t| && keep(t[i]) && keep(t[j]);
      assert s[i + 1] == t[i] && s[j + 1] == t[j];
    }
  }

  lemma {:induction false} FilterSeveral<T(!new)>(s: seq<T>, keep: T -> bool)
    ensures |Filter(s, keep)| >= 2 <==> SeveralMatch(s, keep)
  {
    if s != [] {
      var t := s[1..];
      FilterSeveral(t, keep);
      FilterEmpty(t, keep);
      SeveralMatchCons(s, keep);
      assert |Filter(s, keep)| == (if keep(s[0]) then 1 else 0) + |Filter(t, keep)|;
    }
  }

  /** A first row that satisfies `keep`, followed by rows none of which
      does, is the only match. */
  lemma OnlyMatchAtHead<T(!new)>(head: T, tail: seq<T>, keep: T -> bool)
    requires keep(head) && forall x :: x in tail ==> !keep(x)
    ensures OnlyMatchAt([head] + tail, keep, 0)
  {
  }

  /** A table none of whose rows satisfies `keep` selects nothing. */
  lemma FilterNone<T(!new)>(s: seq<T>, keep: T -> bool)
    requires forall x :: x in s ==> !keep(x)
    ensures Filter(s, keep) == []
  {
    forall i | 0 <= i < |s| ensures !keep(s[i]) {
      assert s[i] in s;
    }
    FilterEmpty(s, keep);
  }

  /** Selecting from two tables one after the other is selecting from each
      and concatenating, so a selection keeps table order. */
  lemma {:induction false} FilterAppend<T(!new)>(s: seq<T>, t: seq<T>, keep: T -> bool)
    ensures Filter(s + t, keep) == Filter(s, keep) + Filter(t, keep)
  {
    if s == [] {
      assert s + t == t;
    } else {
      var head := if keep(s[0]) then [s[0]] else [];
      assert s + t != [] && (s + t)[0] == s[0] && (s + t)[1..] == s[1..] + t;
      FilterAppend(s[1..], t, keep);
      calc {
        Filter(s + t, keep);
        head + Filter(s[1..] + t, keep);
        head + (Filter(s[1..], keep) + Filter(t, keep));
        (head + Filter(s[1..], keep)) + Filter(t, keep);
      }
    }
  }

  lemma {:induction false} FilterKeepsAll<T(!new)>(s: seq<T>, keep: T -> bool)
    requires forall i :: 0 <= i < |s| ==> keep(s[i])
    ensures Filter(s, keep) == s
  {
    if s != [] {
      FilterKeepsAll(s[1..], keep);
    }
  }

  /** A selection that rejects exactly row `k` removes that row and no other. */
  lemma FilterDropsOne<T(!new)>(s: seq<T>, keep: T -> bool, k: int)
    requires 0 <= k < |s| && !keep(s[k])
    requires forall i :: 0 <= i < |s| && i != k ==> keep(s[i])
    ensures Filter(s, keep) == s[..k] + s[k + 1..]
  {
    var before, rest, after := s[..k], s[k..], s[k + 1..];
    SplitAt(s, k);
    forall i | 0 <= i < |before| ensures keep(before[i]) {
      assert before[i] == s[i];
    }
    forall i | 0 <= i < |after| ensures keep(after[i]) {
      assert after[i] == s[k + 1 + i];
    }
    FilterKeepsAll(before, keep);
    FilterKeepsAll(after, keep);
    assert rest != [] && rest[0] == s[k] && rest[1..] == after;
    FilterSkip(rest, keep);
    FilterAppend(before, rest, keep);
  }

  lemma SplitAt<T>(s: seq<T>, k: int)
    requires 0 <= k <= |s|
    ensures s[..k] + s[k..] == s
  {
  }

  /** A first row that `keep` rejects does not appear in the selection. */
  lemma FilterSkip<T(!new)>(s: seq<T>, keep: T -> bool)
    requires s != [] && !keep(s[0])
    ensures Filter(s, keep) == Filter(s[1..], keep)
  {
    var rest := Filter(s[1..], keep);
    assert [] + rest == rest;
  }

  /** The row-count check over a selection fails with `none` exactly when no
      row matches, with `several` exactly when two rows match, and otherwise
      returns the one matching row. */
  lemma SelectSingle<T(!new)>(s: seq<T>, keep: T -> bool, none: Error, several: Error)
    requires none != several
    ensures var r := Single(Filter(s, keep), none, several);
      && (r.Ok? || r == Err(none) || r == Err(several))
      && (r == Err(none) <==> NoMatch(s, keep))
      && (r == Err(several) <==> SeveralMatch(s, keep))
      && (r.Ok? <==> exists k :: OnlyMatchAt(s, keep, k))
      && (r.Ok? ==> forall k :: OnlyMatchAt(s, keep, k) ==> r.value == s[k])
  {
    var rows := Filter(s, keep);
    FilterEmpty(s, keep);
    FilterSeveral(s, keep);
    if |rows| == 1 {
      assert rows[0] in rows;
      var k :| 0 <= k < |s| && s[k] == rows[0];
      forall i | 0 <= i < |s| && keep(s[i]) ensures i == k {
        assert keep(s[k]);
      }
      assert OnlyMatchAt(s, keep, k);
    }
    forall k | OnlyMatchAt(s, keep, k) ensures !NoMatch(s, keep) && !SeveralMatch(s, keep) {
      assert keep(s[k]);
    }
  }
}
