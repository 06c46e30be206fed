/** Rows reported by the NVIDIA tool, and the order they are sorted in. */
module GpuRowOrder {
  import opened Common
  import opened Ordering
  import opened Text

  /** A reading, by its shortest decimal text. */
  type Reading = s: string | '\0' !in s witness "0"

  datatype Values = Values(utilization: Option<Reading>, vramUsed: Option<Reading>)

  datatype Row = Row(
    uuid: string, pci: string, caption: string, model: string,
    status: string, vramTotal: nat, values: Values)

  const NoValues := Values(None, None)
  const CollectionError := "collection_error"

  function ValueText(v: Option<Reading>): (text: string)
    ensures '\0' !in text
  {
    match v
    case None => "0"
    case Some(text) => "1:" + text
  }

  function ValuesKey(v: Values): string {
    ValueText(v.utilization) + "\0" + ValueText(v.vramUsed)
  }

  /** The sort's comparison, test by test. */
  predicate RowLess(left: Row, right: Row) {
    if (left.uuid != "") != (right.uuid != "") then left.uuid != ""
    else if Lower(left.uuid) != Lower(right.uuid) then CompareText(Lower(left.uuid), Lower(right.uuid)) < 0
    else if (left.pci != "") != (right.pci != "") then left.pci != ""
    else if left.pci != right.pci then CompareText(left.pci, right.pci) < 0
    else if left.model != right.model then CompareText(left.model, right.model) < 0
    else if left.vramTotal != right.vramTotal then left.vramTotal < right.vramTotal
    else if left.status != right.status then CompareText(left.status, right.status) < 0
    else CompareText(ValuesKey(left.values), ValuesKey(right.values)) < 0
  }

  /** What the order looks at. */
  datatype Key = Key(uuid: string, pci: string, model: string, vramTotal: nat, status: string, values: string)

  function KeyOf(r: Row): Key {
    Key(Lower(r.uuid), r.pci, r.model, r.vramTotal, r.status, ValuesKey(r.values))
  }

  // ---------------------------------------------------------------- the same order, three-way

  function Then(first: int, second: int): int {
    if first != 0 then first else second
  }

  /** Present texts come before the absent one. */
  function ComparePresent(a: string, b: string): int {
    if (a != "") != (b != "") then (if a != "" then -1 else 1) else CompareText(a, b)
  }

  function CompareIdentity(a: Key, b: Key): int {
    Then(ComparePresent(a.uuid, b.uuid), ComparePresent(a.pci, b.pci))
  }

  function CompareRest(a: Key, b: Key): int {
    Then(CompareText(a.model, b.model),
         Then(Sign(a.vramTotal, b.vramTotal),
              Then(CompareText(a.status, b.status), CompareText(a.values, b.values))))
  }

  function Compare(left: Row, right: Row): int {
    Then(CompareIdentity(KeyOf(left), KeyOf(right)), CompareRest(KeyOf(left), KeyOf(right)))
  }

  lemma RowLessIsCompare(left: Row, right: Row)
    ensures RowLess(left, right) <==> Compare(left, right) < 0
  {
    assert Lower(left.uuid) == "" <==> left.uuid == "";
    assert Lower(right.uuid) == "" <==> right.uuid == "";
  }

  lemma CompareZeroIffSameKey(left: Row, right: Row)
    ensures Compare(left, right) == 0 <==> KeyOf(left) == KeyOf(right)
  {
  }

  /** How the comparisons of three values hang together in an order. */
  predicate Coherent(xy: int, yz: int, xz: int) {
    && (xy == 0 ==> xz == yz)
    && (yz == 0 ==> xz == xy)
    && (xy < 0 && yz < 0 ==> xz < 0)
    && (xy > 0 && yz > 0 ==> xz > 0)
  }

  lemma ThenIsCoherent(xy: int, yz: int, xz: int, xy': int, yz': int, xz': int)
    requires Coherent(xy, yz, xz) && Coherent(xy', yz', xz')
    ensures Coherent(Then(xy, xy'), Then(yz, yz'), Then(xz, xz'))
  {
  }

  lemma TextIsCoherent(x: string, y: string, z: string)
    ensures Coherent(CompareText(x, y), CompareText(y, z), CompareText(x, z))
    ensures CompareText(x, y) == -CompareText(y, x)
  {
    CompareTextAntisymmetric(x, y);
    CompareTextAntisymmetric(y, z);
    CompareTextAntisymmetric(x, z);
    if CompareText(x, y) <= 0 && CompareText(y, z) <= 0 { CompareTextTransitive(x, y, z); }
    if CompareText(z, y) <= 0 && CompareText(y, x) <= 0 { CompareTextTransitive(z, y, x); }
  }

  lemma PresentIsCoherent(x: string, y: string, z: string)
    ensures Coherent(ComparePresent(x, y), ComparePresent(y, z), ComparePresent(x, z))
    ensures ComparePresent(x, y) == -ComparePresent(y, x)
  {
    TextIsCoherent(x, y, z);
  }

  lemma IdentityIsCoherent(a: Key, b: Key, c: Key)
    ensures Coherent(CompareIdentity(a, b), CompareIdentity(b, c), CompareIdentity(a, c))
    ensures CompareIdentity(a, b) == -CompareIdentity(b, a)
  {
    PresentIsCoherent(a.uuid, b.uuid, c.uuid);
    PresentIsCoherent(a.pci, b.pci, c.pci);
    ThenIsCoherent(ComparePresent(a.uuid, b.uuid), ComparePresent(b.uuid, c.uuid), ComparePresent(a.uuid, c.uuid),
                   ComparePresent(a.pci, b.pci), ComparePresent(b.pci, c.pci), ComparePresent(a.pci, c.pci));
  }

  lemma RestIsCoherent(a: Key, b: Key, c: Key)
    ensures Coherent(CompareRest(a, b), CompareRest(b, c), CompareRest(a, c))
    ensures CompareRest(a, b) == -CompareRest(b, a)
  {
    TextIsCoherent(a.model, b.model, c.model);
    TextIsCoherent(a.status, b.status, c.status);
    TextIsCoherent(a.values, b.values, c.values);
  }

  /** The order is total and transitive; rows tie exactly when their keys agree. */
  lemma RowOrder(x: Row, y: Row, z: Row)
    ensures Compare(x, y) == -Compare(y, x)
    ensures Coherent(Compare(x, y), Compare(y, z), Compare(x, z))
  {
    IdentityIsCoherent(KeyOf(x), KeyOf(y), KeyOf(z));
    RestIsCoherent(KeyOf(x), KeyOf(y), KeyOf(z));
    ThenIsCoherent(
      CompareIdentity(KeyOf(x), KeyOf(y)), CompareIdentity(KeyOf(y), KeyOf(z)), CompareIdentity(KeyOf(x), KeyOf(z)),
      CompareRest(KeyOf(x), KeyOf(y)), CompareRest(KeyOf(y), KeyOf(z)), CompareRest(KeyOf(x), KeyOf(z)));
  }

  // ---------------------------------------------------------------- rows as the parser makes them

  /** Lower-case uuid and a caption made from the model. */
  ghost predicate Parsed(r: Row, captionOf: string -> string) {
    r.uuid == Lower(r.uuid) && r.caption == captionOf(r.model)
  }

  lemma ValueTextInjective(v: Option<Reading>, w: Option<Reading>)
    requires ValueText(v) == ValueText(w)
    ensures v == w
  {
    assert ValueText(v)[0] == '0' <==> v.None?;
    assert ValueText(w)[0] == '0' <==> w.None?;
    if v.Some? {
      assert ValueText(v)[2..] == v.value && ValueText(w)[2..] == w.value;
    }
  }

  lemma ValuesKeyInjective(v: Values, w: Values)
    requires ValuesKey(v) == ValuesKey(w)
    ensures v == w
  {
    SplitAtNul(ValueText(v.utilization), ValueText(w.utilization), ValueText(v.vramUsed), ValueText(w.vramUsed));
    ValueTextInjective(v.utilization, w.utilization);
    ValueTextInjective(v.vramUsed, w.vramUsed);
  }

  /** A parsed row is known by its key. */
  lemma KeyDeterminesParsedRow(r: Row, q: Row, captionOf: string -> string)
    requires Parsed(r, captionOf) && Parsed(q, captionOf) && KeyOf(r) == KeyOf(q)
    ensures r == q
  {
    ValuesKeyInjective(r.values, q.values);
  }
}
