/** Insertion sort by a strict weak order: an element goes behind everything it is not less than. */
module Sorting {
  ghost predicate WeakOrder<T(!new)>(less: (T, T) -> bool) {
    && (forall x, y :: less(x, y) ==> !less(y, x))
    && (forall x, y, z :: less(x, y) && less(y, z) ==> less(x, z))
    && (forall x, y, z :: !less(x, y) && !less(y, z) ==> !less(x, z))
  }

  ghost predicate Sorted<T(!new)>(s: seq<T>, less: (T, T) -> bool) {
    forall i, j :: 0 <= i < j < |s| ==> !less(s[j], s[i])
  }

  function InsertBy<T>(s: seq<T>, r: T, less: (T, T) -> bool): seq<T> {
    if s != [] && less(r, s[|s| - 1]) then InsertBy(s[..|s| - 1], r, less) + [s[|s| - 1]] else s + [r]
  }

  function SortBy<T>(rows: seq<T>, less: (T, T) -> bool): seq<T> {
    if rows == [] then [] else InsertBy(SortBy(rows[..|rows| - 1], less), rows[|rows| - 1], less)
  }

  method Insert<T>(s: seq<T>, r: T, less: (T, T) -> bool) returns (t: seq<T>)
    ensures t == InsertBy(s, r, less)
  {
    var k := |s|;
    assert s[..k] == s;
    while k > 0 && less(r, s[k - 1])
      invariant 0 <= k <= |s|
      invariant InsertBy(s, r, less) == InsertBy(s[..k], r, less) + s[k..]
    {
      assert s[..k][..k - 1] == s[..k - 1] && s[k - 1..] == [s[k - 1]] + s[k..];
      k := k - 1;
    }
    t := s[..k] + [r] + s[k..];
  }

  method Sort<T>(rows: seq<T>, less: (T, T) -> bool) returns (s: seq<T>)
    ensures s == SortBy(rows, less)
  {
    s := [];
    for i := 0 to |rows|
      invariant s == SortBy(rows[..i], less)
    {
      assert rows[..i + 1][..i] == rows[..i];
      s := Insert(s, rows[i], less);
    }
    assert rows[..|rows|] == rows;
  }

  // ---------------------------------------------------------------- what sorting yields

  lemma {:induction false} InsertedAt<T(!new)>(s: seq<T>, r: T, less: (T, T) -> bool) returns (k: nat)
    ensures k <= |s| && InsertBy(s, r, less) == s[..k] + [r] + s[k..]
    ensures k > 0 ==> !less(r, s[k - 1])
    ensures k < |s| ==> less(r, s[k])
    decreases |s|
  {
    if s != [] && less(r, s[|s| - 1]) {
      var n := |s| - 1;
      k := InsertedAt(s[..n], r, less);
      assert s[..n][..k] == s[..k] && s[..n][k..] + [s[n]] == s[k..];
    } else {
      k := |s|;
      assert s[..k] == s && s[k..] == [];
    }
  }

  lemma SplicedIsSorted<T(!new)>(s: seq<T>, k: nat, r: T, less: (T, T) -> bool)
    requires WeakOrder(less) && Sorted(s, less) && k <= |s|
    requires k > 0 ==> !less(r, s[k - 1])
    requires k < |s| ==> less(r, s[k])
    ensures Sorted(s[..k] + [r] + s[k..], less)
  {
    var t := s[..k] + [r] + s[k..];
    forall i, j | 0 <= i < j < |t| ensures !less(t[j], t[i]) {
      assert i < k ==> t[i] == s[i] && !less(r, s[i]);
      assert j > k ==> t[j] == s[j - 1] && !less(s[j - 1], r);
    }
  }

  lemma InsertSorts<T(!new)>(s: seq<T>, r: T, less: (T, T) -> bool)
    requires WeakOrder(less) && Sorted(s, less)
    ensures Sorted(InsertBy(s, r, less), less)
  {
    var k := InsertedAt(s, r, less);
    SplicedIsSorted(s, k, r, less);
  }

  lemma {:induction false} SortSorts<T(!new)>(rows: seq<T>, less: (T, T) -> bool)
    requires WeakOrder(less)
    ensures Sorted(SortBy(rows, less), less)
    decreases |rows|
  {
    if rows != [] {
      var n := |rows| - 1;
      SortSorts(rows[..n], less);
      InsertSorts(SortBy(rows[..n], less), rows[n], less);
    }
  }

  lemma {:induction false} InsertPermutes<T>(s: seq<T>, r: T, less: (T, T) -> bool)
    ensures multiset(InsertBy(s, r, less)) == multiset(s) + multiset{r}
    decreases |s|
  {
    if s != [] && less(r, s[|s| - 1]) {
      InsertPermutes(s[..|s| - 1], r, less);
      assert s == s[..|s| - 1] + [s[|s| - 1]];
    }
  }

  lemma {:induction false} SortPermutes<T>(rows: seq<T>, less: (T, T) -> bool)
    ensures multiset(SortBy(rows, less)) == multiset(rows)
    decreases |rows|
  {
    if rows != [] {
      var n := |rows| - 1;
      SortPermutes(rows[..n], less);
      InsertPermutes(SortBy(rows[..n], less), rows[n], less);
      assert rows == rows[..n] + [rows[n]];
    }
  }

  // ---------------------------------------------------------------- repetition

  predicate NoRepeats<T(==)>(s: seq<T>) {
    forall i, j :: 0 <= i < j < |s| ==> s[i] != s[j]
  }

  lemma {:induction false} NoRepeatsCount<T>(s: seq<T>, x: T)
    requires NoRepeats(s)
    ensures multiset(s)[x] <= 1
    decreases |s|
  {
    if s != [] {
      var n := |s| - 1;
      assert s == s[..n] + [s[n]];
      NoRepeatsCount(s[..n], x);
    }
  }

  lemma NoRepeatsPermutes<T>(s: seq<T>, t: seq<T>)
    requires NoRepeats(s) && multiset(s) == multiset(t)
    ensures NoRepeats(t)
  {
    forall i, j | 0 <= i < j < |t| ensures t[i] != t[j] {
      NoRepeatsCount(s, t[i]);
      assert t == t[..j] + t[j..];
      assert t[..j][i] == t[i] && t[j..][0] == t[j];
    }
  }

  lemma SameElements<T>(s: seq<T>, t: seq<T>, x: T)
    requires multiset(s) == multiset(t)
    ensures x in s <==> x in t
  {
    assert x in s <==> x in multiset(s);
    assert x in t <==> x in multiset(t);
  }

  // ---------------------------------------------------------------- ties

  /** `m` comes before every element it ties with. */
  ghost predicate Leads<T(!new)>(s: seq<T>, m: T, less: (T, T) -> bool) {
    exists i :: LeadsAt(s, m, less, i)
  }

  ghost predicate LeadsAt<T(!new)>(s: seq<T>, m: T, less: (T, T) -> bool, i: int) {
    0 <= i < |s| && s[i] == m && forall j :: 0 <= j < i ==> less(s[j], m)
  }

  lemma InsertKeepsLead<T(!new)>(s: seq<T>, r: T, m: T, less: (T, T) -> bool)
    requires WeakOrder(less) && Sorted(s, less) && Leads(s, m, less)
    ensures Leads(InsertBy(s, r, less), m, less)
  {
    var i :| LeadsAt(s, m, less, i);
    var k := InsertedAt(s, r, less);
    var t := InsertBy(s, r, less);
    if k <= i {
      assert less(r, m);
      assert forall j :: 0 <= j < k ==> t[j] == s[j];
      assert forall j :: k < j <= i ==> t[j] == s[j - 1];
      assert LeadsAt(t, m, less, i + 1);
    } else {
      assert forall j :: 0 <= j <= i ==> t[j] == s[j];
      assert LeadsAt(t, m, less, i);
    }
  }

  /** The element listed first stays ahead of its ties. */
  lemma {:induction false} FirstListedLeads<T(!new)>(m: T, rest: seq<T>, less: (T, T) -> bool)
    requires WeakOrder(less)
    ensures Leads(SortBy([m] + rest, less), m, less)
    decreases |rest|
  {
    var rows := [m] + rest;
    if rest == [] {
      assert rows[..0] == [] && SortBy(rows, less) == [m];
      assert LeadsAt([m], m, less, 0);
    } else {
      var n := |rest| - 1;
      assert rows[..|rows| - 1] == [m] + rest[..n] && rows[|rows| - 1] == rest[n];
      FirstListedLeads(m, rest[..n], less);
      SortSorts([m] + rest[..n], less);
      InsertKeepsLead(SortBy([m] + rest[..n], less), rest[n], m, less);
    }
  }
}
