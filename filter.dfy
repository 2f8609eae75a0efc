/**
 * The pure part of the text-box handler: the predicate passed to `Array.filter`
 * and the order-preserving filter it drives.
 */
module Filter {
  import opened Text
  import opened Records

  /** The field a filter key searches. */
  function ColumnText(u: User, key: FilterKey): (text: string)
    requires key != ClearFilters
  {
    if key == FilterByName then u.name else u.email
  }

  /** `it.<field>.toLowerCase().includes(value.toLowerCase())` */
  predicate Matches(u: User, key: FilterKey, query: string)
    requires key != ClearFilters
    ensures Matches(u, key, query) ==> |query| <= |ColumnText(u, key)|
  {
    Contains(ToLower(ColumnText(u, key)), ToLower(query))
  }

  /** `rows.filter(...)`: the matching rows, in their original order. */
  function FilterRows(rows: seq<User>, key: FilterKey, query: string): (r: seq<User>)
    requires key != ClearFilters
    ensures |r| <= |rows|
    ensures forall i :: 0 <= i < |r| ==> Matches(r[i], key, query)
  {
    if rows == [] then []
    else if Matches(rows[0], key, query) then [rows[0]] + FilterRows(rows[1..], key, query)
    else FilterRows(rows[1..], key, query)
  }

  /**
   * What one input event does to the rows: filter on the selected field,
   * or leave the rows alone when the selected key is neither name nor email.
   */
  function ApplyQuery(rows: seq<User>, key: FilterKey, query: string): (r: seq<User>)
    ensures |r| <= |rows|
    ensures key != ClearFilters ==> forall i :: 0 <= i < |r| ==> Matches(r[i], key, query)
  {
    if key == FilterByName then FilterRows(rows, FilterByName, query)
    else if key == FilterByEmail then FilterRows(rows, FilterByEmail, query)
    else rows
  }

  /** `a` is `b` with some elements left out and the rest in the same order. */
  predicate IsSubsequence(a: seq<User>, b: seq<User>)
    decreases |b|
  {
    a == [] ||
    (b != [] && ((a[0] == b[0] && IsSubsequence(a[1..], b[1..])) || IsSubsequence(a, b[1..])))
  }

  lemma {:induction false} SubsequenceReflexive(a: seq<User>)
    ensures IsSubsequence(a, a)
    decreases |a|
  {
    if a != [] {
      SubsequenceReflexive(a[1..]);
    }
  }

  lemma {:induction false} SubsequenceTransitive(a: seq<User>, b: seq<User>, c: seq<User>)
    requires IsSubsequence(a, b) && IsSubsequence(b, c)
    ensures IsSubsequence(a, c)
    decreases |c|
  {
    if a != [] {
      assert b != [] && c != [];
      if b[0] == c[0] && IsSubsequence(b[1..], c[1..]) {
        if a[0] == b[0] && IsSubsequence(a[1..], b[1..]) {
          SubsequenceTransitive(a[1..], b[1..], c[1..]);
        } else {
          SubsequenceTransitive(a, b[1..], c[1..]);
        }
      } else {
        SubsequenceTransitive(a, b, c[1..]);
      }
    }
  }

  /** A subsequence is never longer and holds only elements of the original. */
  lemma {:induction false} SubsequenceContained(a: seq<User>, b: seq<User>)
    requires IsSubsequence(a, b)
    ensures |a| <= |b|
    ensures forall x :: x in a ==> x in b
    decreases |b|
  {
    if a != [] {
      if a[0] == b[0] && IsSubsequence(a[1..], b[1..]) {
        SubsequenceContained(a[1..], b[1..]);
        assert forall x :: x in a ==> x == a[0] || x in a[1..];
      } else {
        SubsequenceContained(a, b[1..]);
      }
    }
  }

  /** Filtering never adds rows and keeps the order of those it keeps. */
  lemma {:induction false} FilterRowsIsSubsequence(rows: seq<User>, key: FilterKey, query: string)
    requires key != ClearFilters
    ensures IsSubsequence(FilterRows(rows, key, query), rows)
    decreases |rows|
  {
    if rows != [] {
      FilterRowsIsSubsequence(rows[1..], key, query);
      var r := FilterRows(rows, key, query);
      if Matches(rows[0], key, query) {
        assert r[0] == rows[0] && r[1..] == FilterRows(rows[1..], key, query);
      }
    }
  }

  /** A row is kept exactly when it was there and matches. */
  lemma {:induction false} FilterRowsMembership(rows: seq<User>, key: FilterKey, query: string, x: User)
    requires key != ClearFilters
    ensures x in FilterRows(rows, key, query) <==> x in rows && Matches(x, key, query)
    decreases |rows|
  {
    if rows != [] {
      FilterRowsMembership(rows[1..], key, query, x);
      assert x in rows <==> x == rows[0] || x in rows[1..];
    }
  }

  /** Each matching row is kept as often as it occurs; each other row disappears. */
  lemma {:induction false} FilterRowsCount(rows: seq<User>, key: FilterKey, query: string, x: User)
    requires key != ClearFilters
    ensures multiset(FilterRows(rows, key, query))[x] == if Matches(x, key, query) then multiset(rows)[x] else 0
    decreases |rows|
  {
    if rows != [] {
      FilterRowsCount(rows[1..], key, query, x);
      var rest := FilterRows(rows[1..], key, query);
      assert rows == [rows[0]] + rows[1..];
      assert multiset(rows) == multiset([rows[0]]) + multiset(rows[1..]);
      if Matches(rows[0], key, query) {
        assert FilterRows(rows, key, query) == [rows[0]] + rest;
        assert multiset([rows[0]] + rest) == multiset([rows[0]]) + multiset(rest);
      } else {
        assert FilterRows(rows, key, query) == rest;
      }
    }
  }

  /** Filtering a concatenation filters each part: the order of the kept rows is the original order. */
  lemma {:induction false} FilterRowsAppend(a: seq<User>, b: seq<User>, key: FilterKey, query: string)
    requires key != ClearFilters
    ensures FilterRows(a + b, key, query) == FilterRows(a, key, query) + FilterRows(b, key, query)
    decreases |a|
  {
    if a == [] {
      assert a + b == b;
    } else {
      assert (a + b)[0] == a[0] && (a + b)[1..] == a[1..] + b;
      FilterRowsAppend(a[1..], b, key, query);
    }
  }

  /** When every row matches, filtering gives the rows back unchanged. */
  lemma {:induction false} FilterRowsAllMatch(rows: seq<User>, key: FilterKey, query: string)
    requires key != ClearFilters
    requires forall i :: 0 <= i < |rows| ==> Matches(rows[i], key, query)
    ensures FilterRows(rows, key, query) == rows
    decreases |rows|
  {
    if rows != [] {
      assert Matches(rows[0], key, query);
      FilterRowsAllMatch(rows[1..], key, query);
    }
  }

  /** Every field contains the empty query, so an empty text box keeps the current rows. */
  lemma EmptyQueryKeepsRows(rows: seq<User>, key: FilterKey)
    requires key != ClearFilters
    ensures FilterRows(rows, key, "") == rows
  {
    forall i | 0 <= i < |rows|
      ensures Matches(rows[i], key, "")
    {
      ContainsEmpty(ToLower(ColumnText(rows[i], key)));
    }
    FilterRowsAllMatch(rows, key, "");
  }

  /** Typing the same query twice filters once. */
  lemma FilterRowsIdempotent(rows: seq<User>, key: FilterKey, query: string)
    requires key != ClearFilters
    ensures FilterRows(FilterRows(rows, key, query), key, query) == FilterRows(rows, key, query)
  {
    FilterRowsAllMatch(FilterRows(rows, key, query), key, query);
  }

  /** Two queries in a row keep the rows that match both, whichever came first. */
  lemma {:induction false} FilterRowsCommute(rows: seq<User>, k1: FilterKey, q1: string, k2: FilterKey, q2: string)
    requires k1 != ClearFilters && k2 != ClearFilters
    ensures FilterRows(FilterRows(rows, k1, q1), k2, q2) == FilterRows(FilterRows(rows, k2, q2), k1, q1)
    decreases |rows|
  {
    if rows != [] {
      FilterRowsCommute(rows[1..], k1, q1, k2, q2);
    }
  }

  /**
   * Filtering is cumulative: once a query has removed a row, a later empty query
   * (the user erasing the text) does not bring it back.
   */
  lemma ErasedQueryDoesNotRestore(rows: seq<User>, key: FilterKey, query: string, x: User)
    requires key != ClearFilters
    requires x in rows && !Matches(x, key, query)
    ensures x !in FilterRows(FilterRows(rows, key, query), key, "")
    ensures FilterRows(FilterRows(rows, key, query), key, "") != rows
  {
    EmptyQueryKeepsRows(FilterRows(rows, key, query), key);
    FilterRowsMembership(rows, key, query, x);
  }

  /** The query is compared case-insensitively: its letter case does not matter. */
  lemma MatchesIgnoresQueryCase(u: User, key: FilterKey, query: string)
    requires key != ClearFilters
    ensures Matches(u, key, query) <==> Matches(u, key, ToLower(query))
  {
    ToLowerIdempotent(query);
  }

  /** A record matches a query that is its own field in other letter case. */
  lemma MatchesOwnField(u: User, key: FilterKey, query: string)
    requires key != ClearFilters
    requires ToLower(query) == ToLower(ColumnText(u, key))
    ensures Matches(u, key, query)
  {
    assert IsPrefix(ToLower(query), ToLower(ColumnText(u, key)));
  }

  /** With the clear key selected, an input event leaves the rows as they are. */
  lemma ApplyQueryClearKeepsRows(rows: seq<User>, query: string)
    ensures ApplyQuery(rows, ClearFilters, query) == rows
  {
  }

  /** An input event only ever narrows the rows it is given. */
  lemma ApplyQueryNarrows(rows: seq<User>, key: FilterKey, query: string)
    ensures IsSubsequence(ApplyQuery(rows, key, query), rows)
  {
    if key == ClearFilters {
      SubsequenceReflexive(rows);
    } else {
      FilterRowsIsSubsequence(rows, key, query);
    }
  }
}
