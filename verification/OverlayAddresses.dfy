/** First-fit overlay address allocation over domain CIDRs, with its 32-bit arithmetic. */
module OverlayAddresses {
  import opened Common
  import opened Decimal

  const WORD := 0x1_0000_0000

  type Address = n: int | 0 <= n < WORD

  // ---------------------------------------------------------------- texts

  /**
   * An overlay_ip text: empty, the canonical dotted form, another spelling net.ParseIP reads as
   * the same IPv4 address (such as ::ffff:a.b.c.d), or a text that is no IPv4 address.
   */
  datatype Text = Blank | Dotted(n: Address) | Alias(n: Address, text: string) | Foreign(text: string)

  function ParseIP(t: Text): Option<Address> {
    match t
    case Dotted(n) => Some(n)
    case Alias(n, _) => Some(n)
    case _ => None
  }

  function Octet(n: Address, k: nat): nat
    requires k < 4
  {
    if k == 3 then n % 256 else if k == 2 then (n / 256) % 256
    else if k == 1 then (n / 256 / 256) % 256 else n / 256 / 256 / 256
  }

  /** uint32ToIP(n).String() */
  function Render(n: Address): string {
    Itoa(Octet(n, 0)) + ['.'] + (Itoa(Octet(n, 1)) + ['.'] + (Itoa(Octet(n, 2)) + ['.'] + Itoa(Octet(n, 3))))
  }

  /** Distinct addresses have distinct texts, so a map keyed by text is keyed by address. */
  lemma RenderInjective(a: Address, b: Address)
    requires Render(a) == Render(b)
    ensures a == b
  {
    var a3, b3 := Itoa(Octet(a, 3)), Itoa(Octet(b, 3));
    var a2, b2 := Itoa(Octet(a, 2)) + ['.'] + a3, Itoa(Octet(b, 2)) + ['.'] + b3;
    var a1, b1 := Itoa(Octet(a, 1)) + ['.'] + a2, Itoa(Octet(b, 1)) + ['.'] + b2;
    DigitsThenMark(Itoa(Octet(a, 0)), Itoa(Octet(b, 0)), a1, b1, '.');
    DigitsThenMark(Itoa(Octet(a, 1)), Itoa(Octet(b, 1)), a2, b2, '.');
    DigitsThenMark(Itoa(Octet(a, 2)), Itoa(Octet(b, 2)), a3, b3, '.');
    ItoaInjective(Octet(a, 0), Octet(b, 0));
    ItoaInjective(Octet(a, 1), Octet(b, 1));
    ItoaInjective(Octet(a, 2), Octet(b, 2));
    ItoaInjective(Octet(a, 3), Octet(b, 3));
    OctetsDetermine(a, b);
  }

  lemma OctetsDetermine(a: Address, b: Address)
    requires forall k: nat :: k < 4 ==> Octet(a, k) == Octet(b, k)
    ensures a == b
  {
    assert Octet(a, 0) == Octet(b, 0) && Octet(a, 1) == Octet(b, 1);
    assert Octet(a, 2) == Octet(b, 2) && Octet(a, 3) == Octet(b, 3);
    assert a / 256 / 256 == b / 256 / 256;
    assert a / 256 == b / 256;
  }

  // ---------------------------------------------------------------- networks

  function Pow2(k: nat): (p: nat)
    ensures p >= 1
  {
    if k == 0 then 1 else 2 * Pow2(k - 1)
  }

  /** The network address: the low `hostBits` bits cleared, as net.ParseCIDR does. */
  function Network(ip: Address, hostBits: nat): Address {
    assert 0 <= ip % Pow2(hostBits) <= ip by { ModBounded(ip, Pow2(hostBits)); }
    ip - ip % Pow2(hostBits)
  }

  lemma ModBounded(a: nat, p: nat)
    requires p >= 1
    ensures 0 <= a % p <= a
  {
    if a < p {
      SmallMod(a, p);
    }
  }

  lemma SmallMod(a: nat, p: nat)
    requires a < p
    ensures a % p == a
  {
  }

  predicate InNetwork(ip: Address, hostBits: nat, n: Address) {
    Network(ip, hostBits) <= n < Network(ip, hostBits) + Pow2(hostBits)
  }

  datatype Cidr = BadCidr | V4(ip: Address, hostBits: nat) | V6(hostBits: nat, held: set<string>)

  /** ipNet.Contains(net.ParseIP(t)) */
  predicate Contains(c: Cidr, t: Text) {
    match c
    case BadCidr => false
    case V4(ip, hostBits) => ParseIP(t).Some? && InNetwork(ip, hostBits, ParseIP(t).value)
    case V6(_, held) => t.Foreign? && t.text in held
  }

  datatype Reservation = ReservedNet(ip: Address, hostBits: nat) | ReservedIP(n: Address) | NotIPv4

  predicate IsReserved(rs: seq<Reservation>, n: Address) {
    exists i :: 0 <= i < |rs| &&
      match rs[i]
      case ReservedNet(ip, hostBits) => InNetwork(ip, hostBits, n)
      case ReservedIP(m) => m == n
      case NotIPv4 => false
  }

  lemma {:induction false} Pow2Adds(a: nat, b: nat)
    ensures Pow2(a + b) == Pow2(a) * Pow2(b)
    decreases a
  {
    if a > 0 { Pow2Adds(a - 1, b); }
  }

  lemma {:induction false} Pow2Grows(a: nat, b: nat)
    requires a <= b
    ensures Pow2(a) <= Pow2(b)
    decreases b - a
  {
    if a < b { Pow2Grows(a, b - 1); }
  }

  /** The last address of a network is still a 32-bit word. */
  lemma NetworkFits(ip: Address, hostBits: nat)
    requires hostBits <= 32
    ensures Network(ip, hostBits) + Pow2(hostBits) <= WORD
  {
    var p, q := Pow2(hostBits), Pow2(32 - hostBits);
    Pow2Adds(hostBits, 32 - hostBits);
    WordIsPow2();
    BlockFits(ip, p, q);
  }

  lemma WordIsPow2()
    ensures Pow2(32) == WORD
  {
    assert Pow2(4) == 16;
    assert Pow2(8) == 16 * 16 by { Pow2Adds(4, 4); }
    assert Pow2(16) == 0x1_0000 by { Pow2Adds(8, 8); }
    assert Pow2(32) == 0x1_0000 * 0x1_0000 by { Pow2Adds(16, 16); }
  }

  lemma BlockFits(a: nat, p: nat, q: nat)
    requires p >= 1 && a < p * q
    ensures a - a % p + p <= p * q
  {
    var k := a / p;
    assert a == p * k + a % p;
    FactorIsSmaller(p, k, q);
    assert p * (k + 1) <= p * q;
  }

  lemma FactorIsSmaller(p: nat, k: nat, q: nat)
    requires p * k < p * q
    ensures k < q
  {
  }

  // ---------------------------------------------------------------- one address

  const SCAN_BUDGET := 0x10_0000

  datatype Error =
    | InvalidCidr | NoHosts | TooManyHosts | OverBudget | NotIPv4Network | Exhausted | Cancelled | UnknownDomain

  /** First assignable host number; a /31 uses both its addresses. */
  function StartHost(hostBits: nat): nat {
    if hostBits <= 1 then 0 else 1
  }

  /** One past the last assignable host number. */
  function EndHost(hostBits: nat): nat {
    if hostBits <= 1 then Pow2(hostBits) else Pow2(hostBits) - 1
  }

  /** networkIP + h on uint32. */
  function Candidate(network: Address, h: nat): Address {
    (network + h) % WORD
  }

  predicate Free(network: Address, h: nat, rs: seq<Reservation>, used: set<Text>) {
    Dotted(Candidate(network, h)) !in used && !IsReserved(rs, Candidate(network, h))
  }

  function FirstFree(network: Address, h: nat, end: nat, rs: seq<Reservation>, used: set<Text>): (r: Option<nat>)
    requires h <= end
    ensures r.Some? ==> h <= r.value < end && Free(network, r.value, rs, used)
    ensures r.Some? ==> forall k :: h <= k < r.value ==> !Free(network, k, rs, used)
    ensures r.None? ==> forall k :: h <= k < end ==> !Free(network, k, rs, used)
    decreases end - h
  {
    if h == end then None
    else if Free(network, h, rs, used) then Some(h)
    else FirstFree(network, h + 1, end, rs, used)
  }

  /** The refusal a CIDR meets before its hosts are scanned. */
  function Refusal(c: Cidr): Option<Error> {
    if c.BadCidr? then Some(InvalidCidr)
    else if c.hostBits == 0 then Some(NoHosts)
    else if c.hostBits >= 32 then Some(TooManyHosts)
    else if EndHost(c.hostBits) - StartHost(c.hostBits) > SCAN_BUDGET then Some(OverBudget)
    else if c.V6? then Some(NotIPv4Network)
    else None
  }

  function AllocateFrom(c: Cidr, rs: seq<Reservation>, used: set<Text>): Result<Address, Error> {
    if Refusal(c).Some? then Err(Refusal(c).value)
    else
      var network := Network(c.ip, c.hostBits);
      Pow2Grows(1, c.hostBits);
      var h := FirstFree(network, StartHost(c.hostBits), EndHost(c.hostBits), rs, used);
      if h.Some? then Ok(Candidate(network, h.value)) else Err(Exhausted)
  }

  /** allocateFromCIDR; the request context may be found cancelled at any poll. */
  method AllocateFromCIDR(c: Cidr, rs: seq<Reservation>, used: set<Text>) returns (r: Result<Address, Error>)
    ensures r == Err(Cancelled) || r == AllocateFrom(c, rs, used)
  {
    if c.BadCidr? { return Err(InvalidCidr); }
    if c.hostBits == 0 { return Err(NoHosts); }
    if c.hostBits >= 32 { return Err(TooManyHosts); }
    Pow2Grows(1, c.hostBits);
    var totalHosts := Pow2(c.hostBits);
    var startHost, endHost := 1, totalHosts - 1;
    if c.hostBits <= 1 { startHost, endHost := 0, totalHosts; }
    if endHost - startHost > SCAN_BUDGET { return Err(OverBudget); }
    if c.V6? { return Err(NotIPv4Network); }
    var network := Network(c.ip, c.hostBits);
    var h := startHost;
    while h < endHost
      invariant startHost <= h <= endHost
      invariant FirstFree(network, startHost, endHost, rs, used) == FirstFree(network, h, endHost, rs, used)
    {
      if (h - startHost) % 4096 == 0 {
        var cancelled: bool := *;
        if cancelled { return Err(Cancelled); }
      }
      if Free(network, h, rs, used) { return Ok(Candidate(network, h)); }
      h := h + 1;
    }
    return Err(Exhausted);
  }

  // ---------------------------------------------------------------- the topology

  datatype Domain = Domain(id: string, cidr: Cidr, reserved: seq<Reservation>)

  datatype Node = Node(name: string, domainId: string, ip: Text)

  /** domainMap[id]: a later domain with the same id replaces an earlier one. */
  function FindDomain(ds: seq<Domain>, id: string): Option<Domain> {
    if ds == [] then None
    else if ds[|ds| - 1].id == id then Some(ds[|ds| - 1])
    else FindDomain(ds[..|ds| - 1], id)
  }

  /** An address outside its domain's CIDR is dropped so that it is allocated again. */
  function ClearNode(ds: seq<Domain>, n: Node): Node {
    var d := FindDomain(ds, n.domainId);
    if n.ip != Blank && d.Some? && !d.value.cidr.BadCidr? && !Contains(d.value.cidr, n.ip)
    then n.(ip := Blank) else n
  }

  function ClearAll(ds: seq<Domain>, ns: seq<Node>): (r: seq<Node>)
    ensures |r| == |ns|
    ensures forall i :: 0 <= i < |ns| ==> r[i] == ClearNode(ds, ns[i])
  {
    seq(|ns|, i requires 0 <= i < |ns| => ClearNode(ds, ns[i]))
  }

  function UsedTexts(ns: seq<Node>): set<Text> {
    set i | 0 <= i < |ns| && ns[i].ip != Blank :: ns[i].ip
  }

  function Prepend(prefix: seq<Node>, r: Result<seq<Node>, Error>): Result<seq<Node>, Error> {
    if r.Ok? then Ok(prefix + r.value) else r
  }

  /** Give every node of `ns` that lacks an address the first free one, in order. */
  function Assign(ds: seq<Domain>, ns: seq<Node>, used: set<Text>): Result<seq<Node>, Error> {
    if ns == [] then Ok([])
    else if ns[0].ip != Blank then Prepend([ns[0]], Assign(ds, ns[1..], used))
    else
      var d := FindDomain(ds, ns[0].domainId);
      if d.None? then Err(UnknownDomain)
      else
        var a := AllocateFrom(d.value.cidr, d.value.reserved, used);
        if a.Err? then Err(a.error)
        else Prepend([ns[0].(ip := Dotted(a.value))], Assign(ds, ns[1..], used + {Dotted(a.value)}))
  }

  function Allocate(ds: seq<Domain>, ns: seq<Node>): Result<seq<Node>, Error> {
    Assign(ds, ClearAll(ds, ns), UsedTexts(ClearAll(ds, ns)))
  }

  /** First pass: drop the addresses that fell out of their domain. */
  method ClearStale(ds: seq<Domain>, ns: seq<Node>) returns (result: seq<Node>)
    ensures result == ClearAll(ds, ns)
  {
    result := ns;
    var i := 0;
    while i < |result|
      invariant 0 <= i <= |result| == |ns|
      invariant forall k :: 0 <= k < i ==> result[k] == ClearNode(ds, ns[k])
      invariant forall k :: i <= k < |ns| ==> result[k] == ns[k]
    {
      result := result[i := ClearNode(ds, result[i])];
      i := i + 1;
    }
  }

  /** Second pass: the texts in use. */
  method RecordUsed(ns: seq<Node>) returns (used: set<Text>)
    ensures used == UsedTexts(ns)
  {
    used := {};
    var i := 0;
    while i < |ns|
      invariant 0 <= i <= |ns|
      invariant used == UsedTexts(ns[..i])
    {
      assert ns[..i + 1] == ns[..i] + [ns[i]];
      UsedSnoc(ns[..i], ns[i]);
      if ns[i].ip != Blank { used := used + {ns[i].ip}; }
      i := i + 1;
    }
    assert ns[..i] == ns;
  }

  /** Third pass: fill in the blanks. */
  method AssignFree(ds: seq<Domain>, ns: seq<Node>, taken: set<Text>) returns (r: Result<seq<Node>, Error>)
    ensures r == Err(Cancelled) || r == Assign(ds, ns, taken)
  {
    var result, used := ns, taken;
    var i := 0;
    assert ns[0..] == ns && result[..0] == [];
    PrependNothing(Assign(ds, ns, taken));
    while i < |ns|
      invariant 0 <= i <= |result| == |ns|
      invariant result[i..] == ns[i..]
      invariant Assign(ds, ns, taken) == Prepend(result[..i], Assign(ds, ns[i..], used))
    {
      assert ns[i..][0] == result[i] && ns[i..][1..] == ns[i + 1..];
      ghost var done := result[..i];
      if result[i].ip == Blank {
        var d := FindDomain(ds, result[i].domainId);
        if d.None? { return Err(UnknownDomain); }
        var a := AllocateFromCIDR(d.value.cidr, d.value.reserved, used);
        if a.Err? { return Err(a.error); }
        result := result[i := result[i].(ip := Dotted(a.value))];
        used := used + {Dotted(a.value)};
      }
      PrependTwice(done, result[i], Assign(ds, ns[i + 1..], used));
      assert result[..i + 1] == done + [result[i]];
      i := i + 1;
    }
    assert result[..i] + [] == result && ns[i..] == [];
    return Ok(result);
  }

  /** AllocateIPs on a copy of the topology's nodes. */
  method AllocateIPs(ds: seq<Domain>, ns: seq<Node>) returns (r: Result<seq<Node>, Error>)
    ensures r == Err(Cancelled) || r == Allocate(ds, ns)
  {
    var cancelled: bool := *;
    if cancelled { return Err(Cancelled); }
    var result := ClearStale(ds, ns);
    var used := RecordUsed(result);
    r := AssignFree(ds, result, used);
  }

  lemma UsedSnoc(ns: seq<Node>, n: Node)
    ensures UsedTexts(ns + [n]) == UsedTexts(ns) + (if n.ip != Blank then {n.ip} else {})
  {
    var all := ns + [n];
    forall t | t in UsedTexts(ns)
      ensures t in UsedTexts(all)
    {
      var i :| 0 <= i < |ns| && ns[i].ip != Blank && ns[i].ip == t;
      assert all[i].ip == t;
    }
    if n.ip != Blank { assert all[|ns|].ip == n.ip; }
  }

  lemma PrependNothing(r: Result<seq<Node>, Error>)
    ensures Prepend([], r) == r
  {
    if r.Ok? { assert [] + r.value == r.value; }
  }

  lemma PrependTwice(prefix: seq<Node>, n: Node, r: Result<seq<Node>, Error>)
    ensures Prepend(prefix, Prepend([n], r)) == Prepend(prefix + [n], r)
  {
    if r.Ok? { assert prefix + ([n] + r.value) == prefix + [n] + r.value; }
  }
}
