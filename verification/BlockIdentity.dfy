/** Block devices, the identities they may be given, and the states their resolution passes through. */
module BlockIdentity {
  import opened Common
  import opened Decimal
  import opened DeviceFrames

  /** The attributes that may identify a device, strongest first. */
  datatype Source = BlockWwid | DeviceWwid | Serial | DmUuid

  const Sources := [BlockWwid, DeviceWwid, Serial, DmUuid]

  function Namespace(s: Source): string {
    match s
    case BlockWwid => "block-wwid-v1"
    case DeviceWwid => "device-wwid-v1"
    case Serial => "serial-v1"
    case DmUuid => "dm-uuid-v1"
  }

  /** What a series id is hashed from; its constructor is the identity kind. */
  datatype Identity =
    | Strong(source: Source, value: string)
    | Partition(parent: string, number: nat)
    | Fallback(relativePath: string, device: string)

  function Canonical(x: Identity): string {
    match x
    case Strong(source, value) => Frame(Namespace(source), [value])
    case Partition(parent, number) => Frame("partition-v1", [parent, Itoa(number)])
    case Fallback(path, device) => Frame("sysfs-fallback-v1", [path, device])
  }

  function NamespaceOf(x: Identity): (n: string)
    ensures '\0' !in n
  {
    match x
    case Strong(source, _) => Namespace(source)
    case Partition(_, _) => "partition-v1"
    case Fallback(_, _) => "sysfs-fallback-v1"
  }

  function PartsOf(x: Identity): seq<string> {
    match x
    case Strong(_, value) => [value]
    case Partition(parent, number) => [parent, Itoa(number)]
    case Fallback(path, device) => [path, device]
  }

  lemma NamespaceTells(x: Identity, y: Identity)
    requires NamespaceOf(x) == NamespaceOf(y)
    ensures x.Strong? <==> y.Strong?
    ensures x.Partition? <==> y.Partition?
    ensures x.Strong? ==> x.source == y.source
  {
    var n, m := NamespaceOf(x), NamespaceOf(y);
    assert n[0] == m[0] && |n| == |m|;
  }

  lemma CanonicalInjective(x: Identity, y: Identity)
    requires Canonical(x) == Canonical(y)
    ensures x == y
  {
    FrameInjective(NamespaceOf(x), PartsOf(x), NamespaceOf(y), PartsOf(y));
    NamespaceTells(x, y);
    var p, q := PartsOf(x), PartsOf(y);
    assert p[0] == q[0];
    if x.Partition? {
      assert p[1] == q[1];
      ItoaInjective(x.number, y.number);
    } else if x.Fallback? {
      assert p[1] == q[1];
    }
  }

  // ---------------------------------------------------------------- devices

  datatype Block = Block(
    realPath: string, relativePath: string, device: string,
    partition: nat, parentPath: string, attributes: map<Source, string>)

  function FirstOf(sources: seq<Source>, attributes: map<Source, string>): Option<Identity> {
    if sources == [] then None
    else if sources[0] in attributes then Some(Strong(sources[0], attributes[sources[0]]))
    else FirstOf(sources[1..], attributes)
  }

  /** The strongest identity a device reports of itself. */
  function StrongOf(b: Block): Option<Identity> {
    FirstOf(Sources, b.attributes)
  }

  lemma {:induction false} FirstOfIsStrong(sources: seq<Source>, attributes: map<Source, string>)
    ensures FirstOf(sources, attributes).Some? ==> FirstOf(sources, attributes).value.Strong?
    decreases |sources|
  {
    if sources != [] { FirstOfIsStrong(sources[1..], attributes); }
  }

  function FallbackOf(b: Block): Identity {
    Fallback(b.relativePath, b.device)
  }

  /** The devices found on a host, found again by path, and the digest used for ids. */
  datatype Host = Host(blocks: seq<Block>, byPath: map<string, int>, digest: string -> string)

  ghost predicate IndexedByPath(blocks: seq<Block>, byPath: map<string, int>) {
    && (forall p :: p in byPath ==> 0 <= byPath[p] < |blocks| && blocks[byPath[p]].realPath == p)
    && (forall i :: 0 <= i < |blocks| ==> blocks[i].realPath in byPath && byPath[blocks[i].realPath] == i)
  }

  /** Devices have distinct places in sysfs, and a partition lies below its parent. */
  ghost predicate WellFormed(h: Host) {
    && IndexedByPath(h.blocks, h.byPath)
    && (forall i, j :: 0 <= i < |h.blocks| && 0 <= j < |h.blocks| && h.blocks[i].relativePath == h.blocks[j].relativePath
          ==> i == j)
    && (forall i :: 0 <= i < |h.blocks| && h.blocks[i].partition > 0
          ==> |h.blocks[i].parentPath| < |h.blocks[i].realPath|)
    && (forall s :: h.digest(s) != "")
  }

  predicate HasParent(h: Host, i: int)
    requires 0 <= i < |h.blocks|
  {
    h.blocks[i].partition > 0 && h.blocks[i].parentPath in h.byPath
  }

  function ParentOf(h: Host, i: int): int
    requires 0 <= i < |h.blocks| && HasParent(h, i)
  {
    h.byPath[h.blocks[i].parentPath]
  }

  // ---------------------------------------------------------------- states

  /** What each device has been given so far. */
  type State = seq<Option<Identity>>

  function SeriesId(h: Host, x: Option<Identity>): string {
    match x
    case None => ""
    case Some(identity) => h.digest(Preimage(identity))
  }

  /** No two of these identities are hashed to one id. */
  ghost predicate CollisionFree(h: Host, seen: set<Identity>) {
    forall x, y :: x in seen && y in seen && SeriesId(h, Some(x)) == SeriesId(h, Some(y)) ==> Preimage(x) == Preimage(y)
  }

  function Preimage(x: Identity): string {
    SeriesPreimage("block_device", Canonical(x))
  }

  /** An identity device i can come by. */
  predicate Own(h: Host, i: int, x: Identity)
    requires 0 <= i < |h.blocks|
  {
    match x
    case Strong(_, _) => StrongOf(h.blocks[i]) == Some(x)
    case Partition(_, number) => StrongOf(h.blocks[i]).None? && HasParent(h, i) && number == h.blocks[i].partition
    case Fallback(_, _) => x == FallbackOf(h.blocks[i])
  }

  ghost predicate OwnState(h: Host, st: State, seen: set<Identity>) {
    && |st| == |h.blocks|
    && forall i :: 0 <= i < |st| && st[i].Some? ==> Own(h, i, st[i].value) && st[i].value in seen
  }

  predicate IsPartition(x: Option<Identity>) {
    x.Some? && x.value.Partition?
  }

  /** Every partition's id is derived from the id its parent has. */
  ghost predicate Coherent(h: Host, st: State)
    requires WellFormed(h) && |st| == |h.blocks|
  {
    forall i :: 0 <= i < |st| && IsPartition(st[i]) ==> FollowsParent(h, st, i)
  }

  predicate FollowsParent(h: Host, st: State, i: int)
    requires |st| == |h.blocks| && 0 <= i < |st|
  {
    && HasParent(h, i) && 0 <= ParentOf(h, i) < |st|
    && st[i] == Some(Partition(SeriesId(h, st[ParentOf(h, i)]), h.blocks[i].partition))
  }

  /** Another device has the same id. */
  ghost predicate Shared(h: Host, st: State, i: int)
    requires 0 <= i < |st|
  {
    st[i].Some? && exists j :: 0 <= j < |st| && j != i && SeriesId(h, st[j]) == SeriesId(h, st[i])
  }

  ghost predicate Distinct(h: Host, st: State) {
    forall i :: 0 <= i < |st| ==> !Shared(h, st, i)
  }

  /** Devices that share an id fall back to their place in sysfs; the others keep theirs. */
  ghost predicate Separated(h: Host, st: State, next: State)
    requires |st| == |h.blocks|
  {
    |next| == |st| && forall i :: 0 <= i < |st| ==> SeparatedAt(h, st, next, i)
  }

  ghost predicate SeparatedAt(h: Host, st: State, next: State, i: int)
    requires |st| == |h.blocks| == |next| && 0 <= i < |st|
  {
    next[i] == if Shared(h, st, i) then Some(FallbackOf(h.blocks[i])) else st[i]
  }

  /** Partitions are given ids from their parents; nothing else changes. */
  ghost predicate Refreshed(h: Host, st: State, next: State)
    requires WellFormed(h) && |st| == |h.blocks|
  {
    && |next| == |st| && Coherent(h, next)
    && forall i :: 0 <= i < |st| ==> (IsPartition(next[i]) <==> IsPartition(st[i])) && (!IsPartition(st[i]) ==> next[i] == st[i])
  }

  // ---------------------------------------------------------------- two rounds suffice

  lemma SameIdSameIdentity(h: Host, seen: set<Identity>, x: Identity, y: Identity)
    requires CollisionFree(h, seen) && x in seen && y in seen
    ensures SeriesId(h, Some(x)) == SeriesId(h, Some(y)) <==> x == y
  {
    if SeriesId(h, Some(x)) == SeriesId(h, Some(y)) {
      SeriesPreimageInjective("block_device", Canonical(x), "block_device", Canonical(y));
      CanonicalInjective(x, y);
    }
  }

  /** A device that kept its identity through a separation shared it with no other. */
  lemma KeptWasUnshared(h: Host, first: State, parted: State, i: int, j: int)
    requires |first| == |h.blocks| && Separated(h, first, parted) && 0 <= i < |first| && 0 <= j < |first| && i != j
    requires parted[i].Some? && !parted[i].value.Fallback?
    ensures parted[i] == first[i] && first[j] != first[i]
  {
    assert SeparatedAt(h, first, parted, i);
  }

  lemma UnresolvedStays(h: Host, first: State, parted: State, last: State, p: int)
    requires WellFormed(h) && |first| == |h.blocks| && Separated(h, first, parted) && Refreshed(h, parted, last)
    requires 0 <= p < |last| && last[p].None?
    ensures first[p].None?
  {
    assert SeparatedAt(h, first, parted, p);
  }

  /**
   * After one round of refreshing and separating, refreshing again cannot
   * bring two devices together: the round before would already have parted them.
   */
  lemma {:induction false} NoTwins(h: Host, seen: set<Identity>, first: State, parted: State, last: State, i: int, j: int)
    requires WellFormed(h) && CollisionFree(h, seen)
    requires OwnState(h, first, seen) && Coherent(h, first) && Separated(h, first, parted)
    requires OwnState(h, last, seen) && Refreshed(h, parted, last)
    requires 0 <= i < |last| && 0 <= j < |last| && i != j && last[i].Some?
    ensures SeriesId(h, last[i]) != SeriesId(h, last[j])
    decreases |h.blocks[i].realPath|
  {
    if last[j].Some? {
      SameIdSameIdentity(h, seen, last[i].value, last[j].value);
      match last[i].value
      case Fallback(_, _) => assert h.blocks[i].relativePath != h.blocks[j].relativePath;
      case Strong(_, _) =>
        KeptWasUnshared(h, first, parted, i, j);
        if last[j].value.Strong? { KeptWasUnshared(h, first, parted, j, i); }
      case Partition(_, _) =>
        if last[j].value.Partition? {
          var p, q := ParentOf(h, i), ParentOf(h, j);
          if p != q && last[p].Some? {
            NoTwins(h, seen, first, parted, last, p, q);
          } else {
            PartedSiblings(h, first, parted, last, i, j);
          }
        }
    }
  }

  /** Partitions of one parent, or of two unresolved ones, are told apart by their numbers. */
  lemma PartedSiblings(h: Host, first: State, parted: State, last: State, i: int, j: int)
    requires WellFormed(h) && |first| == |h.blocks|
    requires Coherent(h, first) && Separated(h, first, parted) && Refreshed(h, parted, last)
    requires 0 <= i < |last| && 0 <= j < |last| && i != j && IsPartition(last[i]) && IsPartition(last[j])
    requires HasParent(h, i) && HasParent(h, j)
    requires ParentOf(h, i) == ParentOf(h, j) || last[ParentOf(h, i)].None?
    ensures last[i] != last[j]
  {
    var p, q := ParentOf(h, i), ParentOf(h, j);
    KeptWasUnshared(h, first, parted, i, j);
    KeptWasUnshared(h, first, parted, j, i);
    assert FollowsParent(h, first, i) && FollowsParent(h, first, j);
    assert FollowsParent(h, last, i) && FollowsParent(h, last, j);
    if p != q && last[q].None? {
      UnresolvedStays(h, first, parted, last, p);
      UnresolvedStays(h, first, parted, last, q);
    }
  }
}
