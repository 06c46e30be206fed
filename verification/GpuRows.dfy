/**
 * Rows of one GPU are recognised by a shared uuid or PCI address, directly
 * or through other rows. Each such group is reported once.
 */
module GpuRows {
  import opened Text
  import opened GpuRowOrder
  import opened Sorting

  predicate HasIdentity(r: Row) {
    r.uuid != "" || r.pci != ""
  }

  predicate SameIdentity(left: Row, right: Row) {
    || (left.uuid != "" && right.uuid != "" && EqualFold(left.uuid, right.uuid))
    || (left.pci != "" && left.pci == right.pci)
  }

  predicate EqualRow(left: Row, right: Row) {
    && EqualFold(left.uuid, right.uuid) && left.pci == right.pci && left.caption == right.caption
    && left.model == right.model && left.status == right.status && left.vramTotal == right.vramTotal
    && left.values == right.values
  }

  /** A row whose group disagrees keeps its identity and loses its readings. */
  function Cleared(r: Row): Row {
    r.(status := CollectionError, values := NoValues, vramTotal := 0)
  }

  // ---------------------------------------------------------------- groups

  /** A set of rows that shares no identity with the rows outside it. */
  ghost predicate Closed(all: set<Row>, c: set<Row>) {
    c <= all && forall x, y :: x in c && y in all && SameIdentity(x, y) ==> y in c
  }

  /** y cannot be separated from x: the two are connected through shared identities. */
  ghost predicate Linked(all: set<Row>, x: Row, y: Row) {
    forall c :: Closed(all, c) && x in c ==> y in c
  }

  lemma LinkedStep(all: set<Row>, x: Row, y: Row, z: Row)
    requires Linked(all, x, y) && y in all && z in all && SameIdentity(y, z)
    ensures Linked(all, x, z)
  {
  }

  lemma LinkedSymmetric(all: set<Row>, x: Row, y: Row)
    requires x in all && y in all && Linked(all, x, y)
    ensures Linked(all, y, x)
  {
    forall c | Closed(all, c) && y in c ensures x in c {
      var rest := all - c;
      assert Closed(all, rest);
    }
  }

  lemma LinkedTransitive(all: set<Row>, x: Row, y: Row, z: Row)
    requires Linked(all, x, y) && Linked(all, y, z)
    ensures Linked(all, x, z)
  {
  }

  /** The row that comes first in its group. */
  ghost predicate Least(all: set<Row>, m: Row) {
    m in all && forall y {:trigger Linked(all, m, y)} :: y in all && Linked(all, m, y) ==> Compare(m, y) <= 0
  }

  ghost predicate Disagrees(all: set<Row>, m: Row) {
    exists y :: y in all && Linked(all, m, y) && !EqualRow(m, y)
  }

  /** What is reported for a group, by the row chosen to stand for it. */
  ghost function Merged(all: set<Row>, m: Row): Row {
    if Disagrees(all, m) then Cleared(m) else m
  }

  /** One least row out of every group. */
  ghost predicate Represents(all: set<Row>, heads: set<Row>) {
    && AllLeast(all, heads) && Separate(all, heads)
    && (forall x {:trigger HasHead(all, heads, x)} :: x in all ==> HasHead(all, heads, x))
  }

  ghost predicate AllLeast(all: set<Row>, heads: set<Row>) {
    forall m {:trigger Least(all, m)} :: m in heads ==> Least(all, m)
  }

  ghost predicate Separate(all: set<Row>, heads: set<Row>) {
    forall m, n {:trigger Linked(all, m, n)} :: m in heads && n in heads && Linked(all, m, n) ==> m == n
  }

  ghost predicate HasHead(all: set<Row>, heads: set<Row>, x: Row) {
    exists m :: m in heads && Linked(all, m, x)
  }

  ghost predicate Reports(all: set<Row>, heads: set<Row>, out: seq<Row>, conflict: bool) {
    && (forall i :: 0 <= i < |out| ==> StandsFor(all, heads, out, i))
    && (forall m {:trigger Merged(all, m)} :: m in heads ==> Merged(all, m) in out)
    && (conflict <==> exists m :: m in heads && Disagrees(all, m))
  }

  /** This output row is what is reported for some group. */
  ghost predicate StandsFor(all: set<Row>, heads: set<Row>, out: seq<Row>, i: int)
    requires 0 <= i < |out|
  {
    exists m :: m in heads && out[i] == Merged(all, m)
  }

  predicate StrictlySorted(out: seq<Row>) {
    forall i, j :: 0 <= i < j < |out| ==> Compare(out[i], out[j]) < 0
  }

  /** A result of normalising these rows. */
  ghost predicate Normalized(all: set<Row>, out: seq<Row>, conflict: bool) {
    StrictlySorted(out) && exists heads :: Represents(all, heads) && Reports(all, heads, out, conflict)
  }

  // ---------------------------------------------------------------- finding the groups

  function RowSet(rows: seq<Row>): set<Row> {
    set r | r in rows
  }

  /** Whatever shares an identity with a marked row is marked. */
  predicate MarksClosed(rows: seq<Row>, marks: seq<bool>)
    requires |marks| == |rows|
  {
    forall a, b :: 0 <= a < |rows| && 0 <= b < |rows| && marks[a] && SameIdentity(rows[a], rows[b]) ==> marks[b]
  }

  /** The work list: rows marked since the search began, each connected to the row it began at. */
  ghost predicate Frontier(rows: seq<Row>, before: seq<bool>, marks: seq<bool>, start: int, component: seq<int>)
    requires |before| == |rows| == |marks| && 0 <= start < |rows|
  {
    && |component| > 0 && component[0] == start
    && (forall k :: 0 <= k < |component| ==> 0 <= component[k] < |rows| && !before[component[k]])
    && (forall k :: 0 <= k < |component| ==> Linked(RowSet(rows), rows[start], rows[component[k]]))
    && (forall k :: 0 < k < |component| ==> HasIdentity(rows[component[k]]))
    && (forall j :: 0 <= j < |rows| ==> (marks[j] <==> before[j] || j in component))
  }

  /** Every neighbour, up to a bound, of this row is marked. */
  predicate Scanned(rows: seq<Row>, marks: seq<bool>, at: int, bound: int)
    requires |marks| == |rows| && 0 <= at < |rows| && bound <= |rows|
  {
    forall b :: 0 <= b < bound && SameIdentity(rows[at], rows[b]) ==> marks[b]
  }

  ghost function Unmarked(marks: seq<bool>): set<int> {
    set j | 0 <= j < |marks| && !marks[j]
  }

  /** Marks and lists the unmarked neighbours of one listed row. */
  method Scan(rows: seq<Row>, ghost before: seq<bool>, marks: seq<bool>, ghost start: int, component: seq<int>, cursor: int)
    returns (marks': seq<bool>, component': seq<int>)
    requires |before| == |rows| == |marks| && 0 <= start < |rows|
    requires Frontier(rows, before, marks, start, component) && 0 <= cursor < |component|
    ensures |marks'| == |rows| && Frontier(rows, before, marks', start, component')
    ensures component <= component' && Scanned(rows, marks', component[cursor], |rows|)
    ensures forall j :: 0 <= j < |rows| && marks[j] ==> marks'[j]
    ensures component' == component || Unmarked(marks') < Unmarked(marks)
  {
    marks', component' := marks, component;
    var left := component[cursor];
    for candidate := 0 to |rows|
      invariant |marks'| == |rows| && Frontier(rows, before, marks', start, component')
      invariant component <= component' && Scanned(rows, marks', left, candidate)
      invariant forall j :: 0 <= j < |rows| && marks[j] ==> marks'[j]
      invariant component' == component || Unmarked(marks') < Unmarked(marks)
    {
      if !marks'[candidate] && SameIdentity(rows[left], rows[candidate]) {
        LinkedStep(RowSet(rows), rows[start], rows[left], rows[candidate]);
        assert candidate in Unmarked(marks);
        marks' := marks'[candidate := true];
        component' := component' + [candidate];
      }
    }
  }

  /** Everything connected to the start, found by working through the list. */
  method Explore(rows: seq<Row>, before: seq<bool>, start: int)
    returns (marks: seq<bool>, component: seq<int>)
    requires |before| == |rows| && 0 <= start < |rows| && !before[start] && MarksClosed(rows, before)
    ensures |marks| == |rows| && MarksClosed(rows, marks)
    ensures Frontier(rows, before, marks, start, component)
  {
    marks, component := before[start := true], [start];
    var cursor := 0;
    while cursor < |component|
      invariant |marks| == |rows| && 0 <= cursor <= |component|
      invariant Frontier(rows, before, marks, start, component)
      invariant forall k :: 0 <= k < cursor ==> Scanned(rows, marks, component[k], |rows|)
      decreases Unmarked(marks), |component| - cursor
    {
      var wider, longer := Scan(rows, before, marks, start, component, cursor);
      marks, component := wider, longer;
      cursor := cursor + 1;
    }
    forall a, b | 0 <= a < |rows| && 0 <= b < |rows| && marks[a] && SameIdentity(rows[a], rows[b]) ensures marks[b] {
      if !before[a] {
        var k :| 0 <= k < |component| && component[k] == a;
        assert Scanned(rows, marks, component[k], |rows|);
      }
    }
  }

  // ---------------------------------------------------------------- one row per group

  /** A row without identity is connected to nothing but itself. */
  lemma LonelyIsAlone(all: set<Row>, x: Row, y: Row)
    requires x in all && !HasIdentity(x) && Linked(all, x, y)
    ensures y == x
  {
    assert Closed(all, {x});
  }

  lemma LinkedKeepsIdentity(all: set<Row>, x: Row, y: Row)
    requires x in all && y in all && Linked(all, x, y)
    ensures HasIdentity(x) <==> HasIdentity(y)
  {
    if !HasIdentity(x) { LonelyIsAlone(all, x, y); }
    if !HasIdentity(y) {
      LinkedSymmetric(all, x, y);
      LonelyIsAlone(all, y, x);
    }
  }

  /** The work list ends as exactly the start's group. */
  lemma ComponentIsGroup(rows: seq<Row>, before: seq<bool>, marks: seq<bool>, start: int, component: seq<int>, j: int)
    requires |before| == |rows| == |marks| && 0 <= start < |rows|
    requires MarksClosed(rows, before) && MarksClosed(rows, marks)
    requires Frontier(rows, before, marks, start, component)
    requires 0 <= j < |rows| && HasIdentity(rows[j]) && Linked(RowSet(rows), rows[start], rows[j])
    ensures j in component
  {
    var group := set k | 0 <= k < |rows| && k in component :: rows[k];
    forall c, b | 0 <= c < |rows| && c in component && 0 <= b < |rows| && SameIdentity(rows[c], rows[b])
      ensures b in component
    {
      assert marks[b];
      assert SameIdentity(rows[b], rows[c]);
      assert !before[b];
    }
    assert Closed(RowSet(rows), group);
    assert rows[start] in group;
    var c :| 0 <= c < |rows| && c in component && rows[c] == rows[j];
    assert SameIdentity(rows[c], rows[j]);
  }

  /** A marked row is not connected to an unmarked one. */
  lemma MarksSeparate(rows: seq<Row>, marks: seq<bool>, i: int, j: int)
    requires |marks| == |rows| && MarksClosed(rows, marks)
    requires 0 <= i < |rows| && 0 <= j < |rows| && marks[i] && !marks[j] && HasIdentity(rows[j])
    ensures !Linked(RowSet(rows), rows[i], rows[j])
  {
    var group := set k | 0 <= k < |rows| && marks[k] :: rows[k];
    assert Closed(RowSet(rows), group);
    assert rows[i] in group;
    forall c | 0 <= c < |rows| && rows[c] == rows[j] ensures !marks[c] {
      assert SameIdentity(rows[c], rows[j]);
    }
    assert rows[j] !in group;
  }

  /** No row before it belongs to its group; rows without identity are groups of their own. */
  ghost predicate FirstAt(rows: seq<Row>, i: int)
    requires 0 <= i < |rows|
  {
    !HasIdentity(rows[i]) || forall j :: 0 <= j < i ==> !Linked(RowSet(rows), rows[j], rows[i])
  }

  /** The reports of the groups that begin among the first `n` rows, in order. */
  ghost function Collected(rows: seq<Row>, n: nat): seq<Row>
    requires n <= |rows|
  {
    if n == 0 then []
    else if FirstAt(rows, n - 1) then Collected(rows, n - 1) + [Merged(RowSet(rows), rows[n - 1])]
    else Collected(rows, n - 1)
  }

  ghost predicate Conflicts(rows: seq<Row>, n: nat)
    requires n <= |rows|
  {
    n > 0 && (Conflicts(rows, n - 1) || (FirstAt(rows, n - 1) && Disagrees(RowSet(rows), rows[n - 1])))
  }

  /** A row already met, or connected to one. */
  ghost predicate ReachedAt(rows: seq<Row>, n: nat, i: int)
    requires n <= |rows| && 0 <= i < |rows|
  {
    i < n || exists j :: 0 <= j < n && HasIdentity(rows[j]) && Linked(RowSet(rows), rows[j], rows[i])
  }

  ghost predicate MarksReached(rows: seq<Row>, marks: seq<bool>, n: nat)
    requires |marks| == |rows| && n <= |rows|
  {
    forall i {:trigger ReachedAt(rows, n, i)} :: 0 <= i < |rows| && marks[i] ==> ReachedAt(rows, n, i)
  }

  /** What the outer loop knows before it looks at row `n`. */
  ghost predicate Progress(rows: seq<Row>, marks: seq<bool>, n: nat)
    requires |marks| == |rows| && n <= |rows|
  {
    MarksClosed(rows, marks) && MarksReached(rows, marks, n) && forall i :: 0 <= i < n ==> marks[i]
  }

  lemma UnmarkedIsFirst(rows: seq<Row>, marks: seq<bool>, n: nat)
    requires |marks| == |rows| && n < |rows| && Progress(rows, marks, n)
    ensures !marks[n] <==> FirstAt(rows, n)
  {
    var all := RowSet(rows);
    if marks[n] {
      assert ReachedAt(rows, n, n);
      var j :| 0 <= j < n && HasIdentity(rows[j]) && Linked(all, rows[j], rows[n]);
      LinkedKeepsIdentity(all, rows[j], rows[n]);
    } else if HasIdentity(rows[n]) {
      forall j | 0 <= j < n ensures !Linked(all, rows[j], rows[n]) { MarksSeparate(rows, marks, j, n); }
    }
  }

  lemma ReachesFurther(rows: seq<Row>, n: nat, i: int)
    requires n < |rows| && 0 <= i < |rows| && ReachedAt(rows, n, i)
    ensures ReachedAt(rows, n + 1, i)
  {
  }

  lemma ExploredIsProgress(rows: seq<Row>, before: seq<bool>, marks: seq<bool>, start: int, component: seq<int>)
    requires |before| == |rows| == |marks| && 0 <= start < |rows| && Progress(rows, before, start)
    requires MarksClosed(rows, marks) && Frontier(rows, before, marks, start, component)
    ensures Progress(rows, marks, start + 1)
  {
    forall i | 0 <= i < |rows| && marks[i] ensures ReachedAt(rows, start + 1, i) {
      if before[i] {
        assert ReachedAt(rows, start, i);
        ReachesFurther(rows, start, i);
      } else if i != start {
        var k :| 0 <= k < |component| && component[k] == i;
        assert Linked(RowSet(rows), rows[start], rows[component[k]]) && HasIdentity(rows[component[k]]);
        LinkedKeepsIdentity(RowSet(rows), rows[start], rows[i]);
      }
    }
  }

  lemma SkippedIsProgress(rows: seq<Row>, marks: seq<bool>, n: nat)
    requires |marks| == |rows| && n < |rows| && Progress(rows, marks, n) && marks[n]
    ensures Progress(rows, marks, n + 1)
  {
    forall i | 0 <= i < |rows| && marks[i] ensures ReachedAt(rows, n + 1, i) {
      assert ReachedAt(rows, n, i);
      ReachesFurther(rows, n, i);
    }
  }

  /** The group's row: the first found, without readings if another differs from it. */
  method Choose(rows: seq<Row>, component: seq<int>) returns (chosen: Row, differs: bool)
    requires |component| > 0 && forall k :: 0 <= k < |component| ==> 0 <= component[k] < |rows|
    ensures differs <==> exists k :: 0 <= k < |component| && !EqualRow(rows[component[0]], rows[component[k]])
    ensures chosen == if differs then Cleared(rows[component[0]]) else rows[component[0]]
  {
    chosen, differs := rows[component[0]], false;
    for k := 1 to |component|
      invariant differs <==> exists l :: 0 <= l < k && !EqualRow(chosen, rows[component[l]])
    {
      if !EqualRow(chosen, rows[component[k]]) { differs := true; }
    }
    if differs { chosen := Cleared(chosen); }
  }

  lemma ChosenIsMerged(rows: seq<Row>, before: seq<bool>, marks: seq<bool>, start: int, component: seq<int>, differs: bool)
    requires |before| == |rows| == |marks| && 0 <= start < |rows|
    requires MarksClosed(rows, before) && MarksClosed(rows, marks)
    requires Frontier(rows, before, marks, start, component)
    requires differs <==> exists k :: 0 <= k < |component| && !EqualRow(rows[start], rows[component[k]])
    ensures differs <==> Disagrees(RowSet(rows), rows[start])
  {
    var all := RowSet(rows);
    if differs {
      var k :| 0 <= k < |component| && !EqualRow(rows[start], rows[component[k]]);
      assert rows[component[k]] in all;
    }
    if Disagrees(all, rows[start]) {
      var y :| y in all && Linked(all, rows[start], y) && !EqualRow(rows[start], y);
      var j :| 0 <= j < |rows| && rows[j] == y;
      if !HasIdentity(y) {
        LinkedSymmetric(all, rows[start], y);
        LonelyIsAlone(all, y, rows[start]);
      }
      ComponentIsGroup(rows, before, marks, start, component, j);
      var k :| 0 <= k < |component| && component[k] == j;
    }
  }

  /** One pass over the rows: every group is explored from its first row and reported once. */
  method MergeGroups(rows: seq<Row>) returns (out: seq<Row>, conflict: bool)
    ensures out == Collected(rows, |rows|)
    ensures conflict <==> Conflicts(rows, |rows|)
  {
    var marks := seq(|rows|, _ => false);
    out, conflict := [], false;
    for start := 0 to |rows|
      invariant |marks| == |rows| && Progress(rows, marks, start)
      invariant out == Collected(rows, start)
      invariant conflict <==> Conflicts(rows, start)
    {
      UnmarkedIsFirst(rows, marks, start);
      if marks[start] {
        SkippedIsProgress(rows, marks, start);
      } else {
        var wider, component := Explore(rows, marks, start);
        ExploredIsProgress(rows, marks, wider, start, component);
        var chosen, differs := Choose(rows, component);
        ChosenIsMerged(rows, marks, wider, start, component, differs);
        marks := wider;
        out, conflict := out + [chosen], conflict || differs;
      }
    }
  }

  // ---------------------------------------------------------------- the whole operation

  /** What the rows come to: sorted, one report for each group, sorted again. */
  ghost function Report(rows: seq<Row>): seq<Row> {
    var s := SortBy(rows, RowLess);
    SortBy(Collected(s, |s|), RowLess)
  }

  ghost predicate ReportConflict(rows: seq<Row>) {
    var s := SortBy(rows, RowLess);
    Conflicts(s, |s|)
  }

  method NormalizeRows(rows: seq<Row>) returns (out: seq<Row>, conflict: bool)
    ensures out == Report(rows)
    ensures conflict <==> ReportConflict(rows)
  {
    var sorted := Sort(rows, RowLess);
    var merged;
    merged, conflict := MergeGroups(sorted);
    out := Sort(merged, RowLess);
  }
}
