/** What normalising the NVIDIA tool's rows yields, and when it depends on their order. */
module GpuReport {
  import opened Text
  import opened Sorting
  import opened GpuRowOrder
  import opened GpuRows

  ghost predicate Identified(all: set<Row>) {
    forall r :: r in all ==> HasIdentity(r)
  }

  lemma RowLessIsOrder()
    ensures WeakOrder(RowLess)
  {
    forall x, y ensures RowLess(x, y) <==> Compare(x, y) < 0 { RowLessIsCompare(x, y); }
    forall x, y, z
      ensures (RowLess(x, y) ==> !RowLess(y, x))
           && (RowLess(x, y) && RowLess(y, z) ==> RowLess(x, z))
           && (!RowLess(x, y) && !RowLess(y, z) ==> !RowLess(x, z))
    {
      RowOrder(x, y, z);
    }
  }

  lemma NotLessIsAtMost(x: Row, y: Row)
    ensures !RowLess(y, x) <==> Compare(x, y) <= 0
  {
    RowLessIsCompare(y, x);
    RowOrder(x, y, x);
  }

  lemma SortKeepsRows(rows: seq<Row>)
    ensures RowSet(SortBy(rows, RowLess)) == RowSet(rows)
  {
    SortPermutes(rows, RowLess);
    var s := SortBy(rows, RowLess);
    forall r ensures r in rows <==> r in s { SameElements(rows, s, r); }
  }

  // ---------------------------------------------------------------- a report is a normal form

  lemma ReportsPermutes(all: set<Row>, heads: set<Row>, s: seq<Row>, t: seq<Row>, conflict: bool)
    requires Reports(all, heads, s, conflict) && multiset(s) == multiset(t)
    ensures Reports(all, heads, t, conflict)
  {
    forall i | 0 <= i < |t| ensures StandsFor(all, heads, t, i) {
      assert t[i] in multiset(s);
      var k :| 0 <= k < |s| && s[k] == t[i];
      assert StandsFor(all, heads, s, k);
    }
    forall m | m in heads ensures Merged(all, m) in t {
      assert Merged(all, m) in multiset(s);
    }
  }

  /** Two reports of the same identity are one report. */
  lemma ReportsTellApart(all: set<Row>, heads: set<Row>, out: seq<Row>, conflict: bool, i: int, j: int)
    requires Identified(all) && Represents(all, heads) && Reports(all, heads, out, conflict)
    requires 0 <= i < |out| && 0 <= j < |out| && SameIdentity(out[i], out[j])
    ensures out[i] == out[j]
  {
    assert StandsFor(all, heads, out, i) && StandsFor(all, heads, out, j);
    var m :| m in heads && out[i] == Merged(all, m);
    var n :| n in heads && out[j] == Merged(all, n);
    assert Least(all, m) && Least(all, n);
    OneHeadPerIdentity(all, heads, m, n);
  }

  lemma OneHeadPerIdentity(all: set<Row>, heads: set<Row>, m: Row, n: Row)
    requires Separate(all, heads) && m in heads && n in heads && m in all && n in all
    requires SameIdentity(Merged(all, m), Merged(all, n))
    ensures m == n
  {
    assert Merged(all, m).uuid == m.uuid && Merged(all, m).pci == m.pci;
    assert Merged(all, n).uuid == n.uuid && Merged(all, n).pci == n.pci;
    LinkedStep(all, m, m, n);
  }

  lemma TieSharesIdentity(x: Row, y: Row)
    requires HasIdentity(x) && Compare(x, y) == 0
    ensures SameIdentity(x, y)
  {
    CompareZeroIffSameKey(x, y);
    assert |Lower(x.uuid)| == |x.uuid| && |Lower(y.uuid)| == |y.uuid|;
    assert KeyOf(x).uuid == KeyOf(y).uuid;
  }

  lemma ReportHasIdentity(all: set<Row>, heads: set<Row>, out: seq<Row>, conflict: bool, i: int)
    requires Identified(all) && Represents(all, heads) && Reports(all, heads, out, conflict) && 0 <= i < |out|
    ensures HasIdentity(out[i])
  {
    assert StandsFor(all, heads, out, i);
    var m :| m in heads && out[i] == Merged(all, m);
    assert Least(all, m);
  }

  lemma SortedIsStrict(all: set<Row>, heads: set<Row>, out: seq<Row>, conflict: bool)
    requires Identified(all) && Represents(all, heads) && Reports(all, heads, out, conflict)
    requires Sorted(out, RowLess) && NoRepeats(out)
    ensures StrictlySorted(out)
  {
    forall i, j | 0 <= i < j < |out| ensures Compare(out[i], out[j]) < 0 {
      NotLessIsAtMost(out[i], out[j]);
      if Compare(out[i], out[j]) == 0 {
        ReportHasIdentity(all, heads, out, conflict, i);
        TieSharesIdentity(out[i], out[j]);
        ReportsTellApart(all, heads, out, conflict, i, j);
      }
    }
  }

  /** The first rows of the groups that begin among the first `n`. */
  ghost function Firsts(s: seq<Row>, n: nat): set<Row>
    requires n <= |s|
  {
    if n == 0 then {} else if FirstAt(s, n - 1) then Firsts(s, n - 1) + {s[n - 1]} else Firsts(s, n - 1)
  }

  lemma {:induction false} FirstsAre(s: seq<Row>, n: nat, m: Row) returns (i: int)
    requires n <= |s| && m in Firsts(s, n)
    ensures 0 <= i < n && s[i] == m && FirstAt(s, i)
    decreases n
  {
    if FirstAt(s, n - 1) && m == s[n - 1] { i := n - 1; } else { i := FirstsAre(s, n - 1, m); }
  }

  lemma {:induction false} FirstIsIn(s: seq<Row>, n: nat, i: int)
    requires n <= |s| && 0 <= i < n && FirstAt(s, i)
    ensures s[i] in Firsts(s, n)
    decreases n
  {
    if i < n - 1 { FirstIsIn(s, n - 1, i); }
  }

  /** Every row has a first row of its group. */
  lemma {:induction false} GroupHasFirst(s: seq<Row>, k: int) returns (i: int)
    requires 0 <= k < |s| && Identified(RowSet(s))
    ensures 0 <= i <= k && FirstAt(s, i) && Linked(RowSet(s), s[i], s[k])
    decreases k
  {
    if FirstAt(s, k) {
      i := k;
    } else {
      var j :| 0 <= j < k && Linked(RowSet(s), s[j], s[k]);
      i := GroupHasFirst(s, j);
      LinkedTransitive(RowSet(s), s[i], s[j], s[k]);
    }
  }

  lemma FirstIsLeast(s: seq<Row>, i: int)
    requires Identified(RowSet(s)) && Sorted(s, RowLess) && 0 <= i < |s| && FirstAt(s, i)
    ensures Least(RowSet(s), s[i])
  {
    var all := RowSet(s);
    forall y | y in all && Linked(all, s[i], y) ensures Compare(s[i], y) <= 0 {
      var j :| 0 <= j < |s| && s[j] == y;
      LinkedSymmetric(all, s[i], y);
      CompareZeroIffSameKey(y, y);
      NotLessIsAtMost(s[i], s[j]);
    }
  }

  lemma FirstsSeparate(s: seq<Row>, i: int, j: int)
    requires Identified(RowSet(s)) && 0 <= i < |s| && 0 <= j < |s| && FirstAt(s, i) && FirstAt(s, j)
    requires Linked(RowSet(s), s[i], s[j])
    ensures i == j
  {
    LinkedSymmetric(RowSet(s), s[i], s[j]);
  }

  lemma FirstsRepresent(s: seq<Row>)
    requires Identified(RowSet(s)) && Sorted(s, RowLess)
    ensures Represents(RowSet(s), Firsts(s, |s|))
  {
    var all, heads := RowSet(s), Firsts(s, |s|);
    forall m | m in heads ensures Least(all, m) {
      var i := FirstsAre(s, |s|, m);
      FirstIsLeast(s, i);
    }
    forall m, n | m in heads && n in heads && Linked(all, m, n) ensures m == n {
      var i := FirstsAre(s, |s|, m);
      var j := FirstsAre(s, |s|, n);
      FirstsSeparate(s, i, j);
    }
    forall x | x in all ensures HasHead(all, heads, x) {
      var k :| 0 <= k < |s| && s[k] == x;
      var i := GroupHasFirst(s, k);
      FirstIsIn(s, |s|, i);
    }
  }

  lemma ReportsOneMore(all: set<Row>, heads: set<Row>, out: seq<Row>, conflict: bool, m: Row)
    requires Reports(all, heads, out, conflict)
    ensures Reports(all, heads + {m}, out + [Merged(all, m)], conflict || Disagrees(all, m))
  {
    var next, more := heads + {m}, out + [Merged(all, m)];
    assert more[|out|] == Merged(all, m);
    forall i | 0 <= i < |more| ensures StandsFor(all, next, more, i) {
      if i < |out| {
        assert StandsFor(all, heads, out, i);
        var n :| n in heads && out[i] == Merged(all, n);
        assert n in next && more[i] == out[i];
      }
    }
    forall n | n in next ensures Merged(all, n) in more {
      if n in heads { assert Merged(all, n) in out; }
    }
    if conflict {
      var n :| n in heads && Disagrees(all, n);
      assert n in next;
    }
  }

  lemma {:induction false} CollectedReports(s: seq<Row>, n: nat)
    requires n <= |s|
    ensures Reports(RowSet(s), Firsts(s, n), Collected(s, n), Conflicts(s, n))
    decreases n
  {
    if n > 0 {
      CollectedReports(s, n - 1);
      if FirstAt(s, n - 1) {
        ReportsOneMore(RowSet(s), Firsts(s, n - 1), Collected(s, n - 1), Conflicts(s, n - 1), s[n - 1]);
      }
    }
  }

  lemma {:induction false} CollectedAt(s: seq<Row>, n: nat, k: int) returns (i: int)
    requires n <= |s| && 0 <= k < |Collected(s, n)|
    ensures 0 <= i < n && FirstAt(s, i) && Collected(s, n)[k] == Merged(RowSet(s), s[i])
    decreases n
  {
    if FirstAt(s, n - 1) && k == |Collected(s, n - 1)| { i := n - 1; } else { i := CollectedAt(s, n - 1, k); }
  }

  lemma {:induction false} CollectedHasNoRepeats(s: seq<Row>, n: nat)
    requires n <= |s| && Identified(RowSet(s))
    ensures NoRepeats(Collected(s, n))
    decreases n
  {
    if n > 0 {
      CollectedHasNoRepeats(s, n - 1);
      if FirstAt(s, n - 1) {
        var before := Collected(s, n - 1);
        forall k | 0 <= k < |before| ensures before[k] != Merged(RowSet(s), s[n - 1]) {
          var i := CollectedAt(s, n - 1, k);
          if before[k] == Merged(RowSet(s), s[n - 1]) {
            SharedIdentityLinks(RowSet(s), s[i], s[n - 1]);
          }
        }
      }
    }
  }

  lemma SharedIdentityLinks(all: set<Row>, x: Row, y: Row)
    requires x in all && y in all && HasIdentity(x)
    requires EqualFold(x.uuid, y.uuid) && x.pci == y.pci
    ensures Linked(all, x, y)
  {
    assert |Lower(x.uuid)| == |x.uuid| && |Lower(y.uuid)| == |y.uuid|;
    assert SameIdentity(x, y);
    LinkedStep(all, x, x, y);
  }

  /** For rows with an identity the report is strictly sorted and stands for every group once. */
  lemma ReportIsNormalized(rows: seq<Row>)
    requires Identified(RowSet(rows))
    ensures Normalized(RowSet(rows), Report(rows), ReportConflict(rows))
  {
    var s := SortBy(rows, RowLess);
    RowLessIsOrder();
    SortKeepsRows(rows);
    SortSorts(rows, RowLess);
    FirstsRepresent(s);
    CollectedReports(s, |s|);
    CollectedHasNoRepeats(s, |s|);
    CollectedSortsStrictly(RowSet(rows), Firsts(s, |s|), Collected(s, |s|), ReportConflict(rows));
  }

  lemma CollectedSortsStrictly(all: set<Row>, heads: set<Row>, merged: seq<Row>, conflict: bool)
    requires WeakOrder(RowLess) && Identified(all) && Represents(all, heads) && Reports(all, heads, merged, conflict)
    requires NoRepeats(merged)
    ensures Normalized(all, SortBy(merged, RowLess), conflict)
  {
    var out := SortBy(merged, RowLess);
    SortSorts(merged, RowLess);
    SortPermutes(merged, RowLess);
    NoRepeatsPermutes(merged, out);
    ReportsPermutes(all, heads, merged, out, conflict);
    SortedIsStrict(all, heads, out, conflict);
  }

  // ---------------------------------------------------------------- what a report says

  /** No two reported rows share a uuid or a PCI address. */
  lemma ReportsShareNothing(all: set<Row>, out: seq<Row>, conflict: bool, i: int, j: int)
    requires Identified(all) && Normalized(all, out, conflict) && 0 <= i < j < |out|
    ensures !SameIdentity(out[i], out[j])
  {
    var heads :| Represents(all, heads) && Reports(all, heads, out, conflict);
    if SameIdentity(out[i], out[j]) {
      ReportsTellApart(all, heads, out, conflict, i, j);
      CompareZeroIffSameKey(out[i], out[j]);
    }
  }

  /** All rows connected to x say the same. */
  ghost predicate Agrees(all: set<Row>, x: Row) {
    forall y {:trigger Linked(all, x, y)} :: y in all && Linked(all, x, y) ==> EqualRow(x, y)
  }

  lemma AgreesAcrossGroup(all: set<Row>, x: Row, y: Row)
    requires x in all && y in all && Linked(all, x, y)
    ensures Agrees(all, x) <==> Agrees(all, y)
  {
    LinkedSymmetric(all, x, y);
    if Agrees(all, x) {
      forall z | z in all && Linked(all, y, z) ensures EqualRow(y, z) { LinkedTransitive(all, x, y, z); }
    }
    if Agrees(all, y) {
      forall z | z in all && Linked(all, x, z) ensures EqualRow(x, z) { LinkedTransitive(all, y, x, z); }
    }
  }

  lemma DisagreesIffNotAgrees(all: set<Row>, x: Row)
    ensures Disagrees(all, x) <==> !Agrees(all, x)
  {
  }

  /**
   * Every input row is accounted for by one report of its group: the row
   * itself up to the spelling of the uuid when the group agrees, a row of
   * the group without any reading when it does not.
   */
  lemma EveryRowIsReported(all: set<Row>, out: seq<Row>, conflict: bool, x: Row) returns (i: int, m: Row)
    requires Normalized(all, out, conflict) && x in all
    ensures 0 <= i < |out| && Least(all, m) && Linked(all, x, m)
    ensures Agrees(all, x) ==> out[i] == m && EqualRow(x, m)
    ensures !Agrees(all, x) ==> conflict && out[i] == Cleared(m)
  {
    var heads :| Represents(all, heads) && Reports(all, heads, out, conflict);
    m := HeadOf(all, heads, x);
    i := ReportOf(all, heads, out, conflict, m);
    AgreesAcrossGroup(all, x, m);
  }

  lemma HeadOf(all: set<Row>, heads: set<Row>, x: Row) returns (m: Row)
    requires Represents(all, heads) && x in all
    ensures m in heads && Least(all, m) && Linked(all, x, m)
  {
    assert HasHead(all, heads, x);
    m :| m in heads && Linked(all, m, x);
    assert Least(all, m);
    LinkedSymmetric(all, m, x);
  }

  lemma ReportOf(all: set<Row>, heads: set<Row>, out: seq<Row>, conflict: bool, m: Row) returns (i: int)
    requires Reports(all, heads, out, conflict) && m in heads
    ensures 0 <= i < |out| && out[i] == Merged(all, m)
    ensures Agrees(all, m) ==> out[i] == m
    ensures !Agrees(all, m) ==> conflict && out[i] == Cleared(m)
  {
    DisagreesIffNotAgrees(all, m);
    assert Merged(all, m) in out;
    i :| 0 <= i < |out| && out[i] == Merged(all, m);
  }

  // ---------------------------------------------------------------- order

  /** In every group the first rows, by the sort's order, are one and the same row. */
  ghost predicate LeastIsUnique(all: set<Row>) {
    forall m, n {:trigger Linked(all, m, n)} :: Least(all, m) && Least(all, n) && Linked(all, m, n) ==> m == n
  }

  lemma HeadsAreUnique(all: set<Row>, heads: set<Row>, others: set<Row>)
    requires LeastIsUnique(all) && Represents(all, heads) && Represents(all, others)
    ensures heads <= others
  {
    forall m | m in heads ensures m in others {
      assert Least(all, m);
      assert HasHead(all, others, m);
      var n :| n in others && Linked(all, n, m);
      assert Least(all, n);
    }
  }

  lemma {:induction false} StrictlySortedIsUnique(s: seq<Row>, t: seq<Row>)
    requires StrictlySorted(s) && StrictlySorted(t)
    requires forall x :: x in s <==> x in t
    ensures s == t
    decreases |s|
  {
    if s == [] {
      if t != [] { HeadIsIn(t); }
    } else {
      assert s[0] in t;
      FirstIsFirst(s, t);
      StrictTails(s, t);
      StrictlySortedIsUnique(s[1..], t[1..]);
      assert s == [s[0]] + s[1..] && t == [t[0]] + t[1..];
    }
  }

  lemma HeadIsIn(t: seq<Row>)
    requires t != []
    ensures t[0] in t
  {
  }

  lemma FirstIsFirst(s: seq<Row>, t: seq<Row>)
    requires s != [] && t != [] && StrictlySorted(s) && StrictlySorted(t)
    requires s[0] in t && t[0] in s
    ensures s[0] == t[0]
  {
    var i :| 0 <= i < |t| && t[i] == s[0];
    var j :| 0 <= j < |s| && s[j] == t[0];
    RowOrder(s[0], t[0], s[0]);
  }

  lemma StrictTails(s: seq<Row>, t: seq<Row>)
    requires s != [] && t != [] && StrictlySorted(s) && StrictlySorted(t) && s[0] == t[0]
    requires forall x :: x in s <==> x in t
    ensures StrictlySorted(s[1..]) && StrictlySorted(t[1..])
    ensures forall x :: x in s[1..] <==> x in t[1..]
  {
    CompareZeroIffSameKey(s[0], s[0]);
    forall x ensures x in s[1..] <==> x in s && x != s[0] {
      if x in s && x != s[0] {
        var i :| 0 <= i < |s| && s[i] == x;
        assert s[1..][i - 1] == x;
      }
    }
    forall x ensures x in t[1..] <==> x in t && x != t[0] {
      if x in t && x != t[0] {
        var i :| 0 <= i < |t| && t[i] == x;
        assert t[1..][i - 1] == x;
      }
    }
  }

  lemma SameHeadsSameReports(all: set<Row>, heads: set<Row>, s: seq<Row>, c: bool, t: seq<Row>, d: bool, x: Row)
    requires Reports(all, heads, s, c) && Reports(all, heads, t, d) && x in s
    ensures x in t
  {
    var i :| 0 <= i < |s| && s[i] == x;
    assert StandsFor(all, heads, s, i);
  }

  /** The report is a function of the rows, whatever order and however often they come. */
  lemma ReportIsDetermined(all: set<Row>, s: seq<Row>, c: bool, t: seq<Row>, d: bool)
    requires LeastIsUnique(all) && Normalized(all, s, c) && Normalized(all, t, d)
    ensures s == t && c == d
  {
    var heads :| Represents(all, heads) && Reports(all, heads, s, c);
    var others :| Represents(all, others) && Reports(all, others, t, d);
    HeadsAreUnique(all, heads, others);
    HeadsAreUnique(all, others, heads);
    assert heads == others;
    forall x ensures x in s <==> x in t {
      if x in s { SameHeadsSameReports(all, heads, s, c, t, d, x); }
      if x in t { SameHeadsSameReports(all, heads, t, d, s, c, x); }
    }
    StrictlySortedIsUnique(s, t);
  }

  /** Rows as the parser makes them: in every group the first rows are one. */
  lemma ParsedLeastIsUnique(all: set<Row>, captionOf: string -> string)
    requires forall r :: r in all ==> Parsed(r, captionOf)
    ensures LeastIsUnique(all)
  {
    forall m, n | Least(all, m) && Least(all, n) && Linked(all, m, n) ensures m == n {
      LeastTie(all, m, n);
      KeyDeterminesParsedRow(m, n, captionOf);
    }
  }

  /** For rows as the parser makes them neither the order nor the repetition of lines matters. */
  lemma ParsedRowsInAnyOrder(rows: seq<Row>, other: seq<Row>, captionOf: string -> string)
    requires RowSet(rows) == RowSet(other) && Identified(RowSet(rows))
    requires forall r :: r in RowSet(rows) ==> Parsed(r, captionOf)
    ensures Report(rows) == Report(other) && (ReportConflict(rows) <==> ReportConflict(other))
  {
    ParsedLeastIsUnique(RowSet(rows), captionOf);
    ReportIsNormalized(rows);
    ReportIsNormalized(other);
    ReportIsDetermined(RowSet(rows), Report(rows), ReportConflict(rows), Report(other), ReportConflict(other));
  }

  lemma LeastTie(all: set<Row>, m: Row, n: Row)
    requires Least(all, m) && Least(all, n) && Linked(all, m, n)
    ensures KeyOf(m) == KeyOf(n)
  {
    LinkedSymmetric(all, m, n);
    RowOrder(m, n, m);
    CompareZeroIffSameKey(m, n);
  }

  // ---------------------------------------------------------------- when order does matter

  lemma MergedTie(all: set<Row>, m: Row, n: Row)
    requires m in all && n in all && Linked(all, m, n) && KeyOf(m) == KeyOf(n)
    ensures m != n ==> Merged(all, m) != Merged(all, n)
  {
    AgreesAcrossGroup(all, m, n);
    DisagreesIffNotAgrees(all, m);
    DisagreesIffNotAgrees(all, n);
    ValuesKeyInjective(m.values, n.values);
  }

  /** The least row listed first is the first of its group after sorting. */
  lemma LeaderIsFirst(s: seq<Row>, m: Row)
    requires Leads(s, m, RowLess) && Least(RowSet(s), m)
    ensures m in Firsts(s, |s|)
  {
    var i :| LeadsAt(s, m, RowLess, i);
    forall j | 0 <= j < i ensures !Linked(RowSet(s), s[j], s[i]) {
      if Linked(RowSet(s), s[j], s[i]) {
        LinkedSymmetric(RowSet(s), s[j], s[i]);
        RowLessIsCompare(s[j], m);
        RowOrder(s[j], m, s[j]);
      }
    }
    FirstIsIn(s, |s|, i);
  }

  /** With a group's least row listed first, that row is reported, and no other of its group. */
  lemma ListedFirstIsReported(m: Row, rest: seq<Row>)
    requires Identified(RowSet([m] + rest)) && Least(RowSet([m] + rest), m)
    ensures var s := SortBy([m] + rest, RowLess);
            m in Firsts(s, |s|) && Represents(RowSet(s), Firsts(s, |s|))
            && Reports(RowSet(s), Firsts(s, |s|), Report([m] + rest), ReportConflict([m] + rest))
            && RowSet(s) == RowSet([m] + rest)
  {
    var rows := [m] + rest;
    var s := SortBy(rows, RowLess);
    RowLessIsOrder();
    SortKeepsRows(rows);
    SortSorts(rows, RowLess);
    FirstListedLeads(m, rest, RowLess);
    LeaderIsFirst(s, m);
    FirstsRepresent(s);
    CollectedReports(s, |s|);
    SortPermutes(Collected(s, |s|), RowLess);
    ReportsPermutes(RowSet(s), Firsts(s, |s|), Collected(s, |s|), Report(rows), ReportConflict(rows));
  }

  /** Two heads of one group make two reports. */
  lemma DifferentHeadsDifferentReports(all: set<Row>, heads: set<Row>, out: seq<Row>, c: bool, m: Row,
                                       others: set<Row>, other: seq<Row>, d: bool, n: Row)
    requires Identified(all) && Represents(all, others) && Reports(all, heads, out, c) && Reports(all, others, other, d)
    requires m in heads && n in others && Least(all, m) && Least(all, n) && Linked(all, n, m) && m != n
    ensures out != other
  {
    LeastTie(all, n, m);
    MergedTie(all, n, m);
    assert Merged(all, m) in out;
    forall k | 0 <= k < |other| ensures other[k] != Merged(all, m) {
      assert StandsFor(all, others, other, k);
      var h :| h in others && other[k] == Merged(all, h);
      if other[k] == Merged(all, m) {
        assert Least(all, h);
        SharedIdentityLinks(all, m, h);
        LinkedTransitive(all, n, m, h);
      }
    }
  }

  /** Both orders list the same rows; each puts one of two least rows of a group first. */
  lemma TwoLeastTwoReports(m: Row, rest: seq<Row>, n: Row, rest': seq<Row>)
    requires RowSet([m] + rest) == RowSet([n] + rest') && Identified(RowSet([m] + rest))
    requires var all := RowSet([m] + rest); Least(all, m) && Least(all, n) && Linked(all, n, m) && m != n
    ensures Report([m] + rest) != Report([n] + rest')
  {
    ListedFirstIsReported(m, rest);
    ListedFirstIsReported(n, rest');
    var s, t := SortBy([m] + rest, RowLess), SortBy([n] + rest', RowLess);
    DifferentHeadsDifferentReports(RowSet(s), Firsts(s, |s|), Report([m] + rest), ReportConflict([m] + rest), m,
                                   Firsts(t, |t|), Report([n] + rest'), ReportConflict([n] + rest'), n);
  }

  lemma BroughtToFront(rows: seq<Row>, m: Row) returns (rest: seq<Row>)
    requires m in rows
    ensures multiset([m] + rest) == multiset(rows)
  {
    var i :| 0 <= i < |rows| && rows[i] == m;
    rest := rows[..i] + rows[i + 1..];
    assert rows == rows[..i] + [m] + rows[i + 1..];
  }

  lemma SameMultisetSameSet(a: seq<Row>, b: seq<Row>)
    requires multiset(a) == multiset(b)
    ensures RowSet(a) == RowSet(b)
  {
    forall r ensures r in a <==> r in b { SameElements(a, b, r); }
  }

  ghost predicate OrderIrrelevant(rows: seq<Row>) {
    forall a, b :: multiset(a) == multiset(rows) && multiset(b) == multiset(rows) ==> Report(a) == Report(b)
  }

  /** All orders of a list of rows give one report exactly when every group has one first row. */
  lemma OrderIrrelevantIffLeastUnique(rows: seq<Row>)
    requires Identified(RowSet(rows))
    ensures OrderIrrelevant(rows) <==> LeastIsUnique(RowSet(rows))
  {
    if LeastIsUnique(RowSet(rows)) {
      forall a, b | multiset(a) == multiset(rows) && multiset(b) == multiset(rows) ensures Report(a) == Report(b) {
        OneReportForBoth(rows, a, b);
      }
    } else {
      var a, b := TwoOrdersDiffer(rows);
    }
  }

  lemma OneReportForBoth(rows: seq<Row>, a: seq<Row>, b: seq<Row>)
    requires Identified(RowSet(rows)) && LeastIsUnique(RowSet(rows))
    requires multiset(a) == multiset(rows) && multiset(b) == multiset(rows)
    ensures Report(a) == Report(b)
  {
    SameMultisetSameSet(a, rows);
    SameMultisetSameSet(b, rows);
    ReportIsNormalized(a);
    ReportIsNormalized(b);
    ReportIsDetermined(RowSet(rows), Report(a), ReportConflict(a), Report(b), ReportConflict(b));
  }

  lemma TwoOrdersDiffer(rows: seq<Row>) returns (a: seq<Row>, b: seq<Row>)
    requires Identified(RowSet(rows)) && !LeastIsUnique(RowSet(rows))
    ensures multiset(a) == multiset(rows) && multiset(b) == multiset(rows) && Report(a) != Report(b)
  {
    var all := RowSet(rows);
    var m, n :| Least(all, m) && Least(all, n) && Linked(all, m, n) && m != n;
    LinkedSymmetric(all, m, n);
    var rest := BroughtToFront(rows, m);
    var rest' := BroughtToFront(rows, n);
    a, b := [m] + rest, [n] + rest';
    SameMultisetSameSet(a, rows);
    SameMultisetSameSet(b, rows);
    TwoLeastTwoReports(m, rest, n, rest');
  }

  /** Two rows that differ only in their caption are reported by whichever comes first. */
  lemma CaptionsMakeOrderMatter(r: Row, caption: string)
    requires HasIdentity(r) && caption != r.caption
    ensures var q := r.(caption := caption); Report([r] + [q]) != Report([q] + [r])
  {
    var q := r.(caption := caption);
    var all := RowSet([r] + [q]);
    assert all == {r, q} && RowSet([q] + [r]) == {r, q};
    SharedIdentityLinks(all, q, r);
    CompareZeroIffSameKey(r, q);
    CompareZeroIffSameKey(q, r);
    CompareZeroIffSameKey(r, r);
    CompareZeroIffSameKey(q, q);
    assert Least(all, r) && Least(all, q);
    TwoLeastTwoReports(r, [q], q, [r]);
  }
}
