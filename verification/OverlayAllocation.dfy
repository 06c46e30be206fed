/** What address allocation promises: freshness, stability, idempotence, completeness. */
module OverlayAllocation {
  import opened Common
  import opened OverlayAddresses

  // ---------------------------------------------------------------- one allocation

  /** The assignable addresses of an accepted IPv4 CIDR. */
  predicate Assignable(c: Cidr, m: int) {
    c.V4? && c.hostBits <= 32 &&
    Network(c.ip, c.hostBits) + StartHost(c.hostBits) <= m < Network(c.ip, c.hostBits) + EndHost(c.hostBits)
  }

  lemma CandidateIsSum(c: Cidr, h: nat)
    requires Refusal(c).None? && h < EndHost(c.hostBits)
    ensures Candidate(Network(c.ip, c.hostBits), h) == Network(c.ip, c.hostBits) + h
    ensures InNetwork(c.ip, c.hostBits, Network(c.ip, c.hostBits) + h)
  {
    NetworkFits(c.ip, c.hostBits);
  }

  /** The address handed out is assignable, unreserved, unused, and the least such. */
  lemma AllocatedIsLeastFree(c: Cidr, rs: seq<Reservation>, used: set<Text>)
    requires AllocateFrom(c, rs, used).Ok?
    ensures var n := AllocateFrom(c, rs, used).value;
            && Assignable(c, n) && Contains(c, Dotted(n)) && !IsReserved(rs, n) && Dotted(n) !in used
            && forall m: Address :: Assignable(c, m) && m < n ==> Dotted(m) in used || IsReserved(rs, m)
  {
    var n := AllocateFrom(c, rs, used).value;
    var network := Network(c.ip, c.hostBits);
    Pow2Grows(1, c.hostBits);
    var h := FirstFree(network, StartHost(c.hostBits), EndHost(c.hostBits), rs, used).value;
    CandidateIsSum(c, h);
    forall m: Address | Assignable(c, m) && m < n
      ensures Dotted(m) in used || IsReserved(rs, m)
    {
      CandidateIsSum(c, m - network);
      assert !Free(network, m - network, rs, used);
    }
  }

  ghost function Unreserved(c: Cidr, rs: seq<Reservation>): set<Address> {
    set m: Address | 0 <= m < WORD && Assignable(c, m) && !IsReserved(rs, m) :: m
  }

  lemma {:induction false} Pigeonhole(hosts: set<Address>, used: set<Text>)
    requires forall m :: m in hosts ==> Dotted(m) in used
    ensures |hosts| <= |used|
    decreases hosts
  {
    if hosts != {} {
      var m :| m in hosts;
      Pigeonhole(hosts - {m}, used - {Dotted(m)});
    }
  }

  /** A scan reports exhaustion exactly when every assignable unreserved address is in use. */
  lemma ExhaustedIffAllUsed(c: Cidr, rs: seq<Reservation>, used: set<Text>)
    requires Refusal(c).None?
    ensures AllocateFrom(c, rs, used) == Err(Exhausted) <==>
            forall m: Address :: Assignable(c, m) && !IsReserved(rs, m) ==> Dotted(m) in used
  {
    var network := Network(c.ip, c.hostBits);
    Pow2Grows(1, c.hostBits);
    if AllocateFrom(c, rs, used).Ok? {
      AllocatedIsLeastFree(c, rs, used);
    } else {
      forall m: Address | Assignable(c, m) && !IsReserved(rs, m)
        ensures Dotted(m) in used
      {
        CandidateIsSum(c, m - network);
        assert !Free(network, m - network, rs, used);
      }
    }
  }

  /** With more unreserved hosts than addresses in use, a domain is never exhausted. */
  lemma EnoughHostsSuffice(c: Cidr, rs: seq<Reservation>, used: set<Text>)
    requires Refusal(c).None? && |used| < |Unreserved(c, rs)|
    ensures AllocateFrom(c, rs, used).Ok?
  {
    ExhaustedIffAllUsed(c, rs, used);
    if AllocateFrom(c, rs, used) == Err(Exhausted) {
      Pigeonhole(Unreserved(c, rs), used);
    }
  }

  // ---------------------------------------------------------------- a whole topology

  /** Node `i` of the result was given the least address free at its turn. */
  ghost predicate FreshAt(ds: seq<Domain>, ns: seq<Node>, used: set<Text>, r: seq<Node>, i: nat)
    requires i < |r| == |ns|
  {
    var d := FindDomain(ds, ns[i].domainId);
    && d.Some? && r[i].ip.Dotted? && r[i] == ns[i].(ip := r[i].ip)
    && Assignable(d.value.cidr, r[i].ip.n) && Contains(d.value.cidr, r[i].ip)
    && !IsReserved(d.value.reserved, r[i].ip.n)
    && r[i].ip !in used
    && forall m: Address :: Assignable(d.value.cidr, m) && m < r[i].ip.n ==>
         || Dotted(m) in used
         || (exists j :: 0 <= j < i && r[j].ip == Dotted(m))
         || IsReserved(d.value.reserved, m)
  }

  /** What assigning addresses in order yields. */
  ghost predicate Assigned(ds: seq<Domain>, ns: seq<Node>, used: set<Text>, r: seq<Node>) {
    && |r| == |ns|
    && (forall i :: 0 <= i < |ns| && ns[i].ip != Blank ==> r[i] == ns[i])
    && (forall i :: 0 <= i < |ns| && ns[i].ip == Blank ==> FreshAt(ds, ns, used, r, i))
    && (forall i, j :: 0 <= i < j < |ns| && ns[i].ip == Blank && ns[j].ip == Blank ==> r[i].ip != r[j].ip)
  }

  lemma {:induction false} AssignResult(ds: seq<Domain>, ns: seq<Node>, used: set<Text>)
    requires Assign(ds, ns, used).Ok?
    ensures Assigned(ds, ns, used, Assign(ds, ns, used).value)
    decreases |ns|
  {
    if ns != [] {
      var r := Assign(ds, ns, used).value;
      var blank := ns[0].ip == Blank;
      var used' := if blank then used + {r[0].ip} else used;
      AssignResult(ds, ns[1..], used');
      assert r == [r[0]] + Assign(ds, ns[1..], used').value;
      if blank { FirstIsFresh(ds, ns, used); }
      AssignedOneMore(ds, ns, used, used', r);
    }
  }

  lemma FirstIsFresh(ds: seq<Domain>, ns: seq<Node>, used: set<Text>)
    requires Assign(ds, ns, used).Ok? && ns != [] && ns[0].ip == Blank
    requires |Assign(ds, ns, used).value| == |ns|
    ensures FreshAt(ds, ns, used, Assign(ds, ns, used).value, 0)
  {
    var d := FindDomain(ds, ns[0].domainId).value;
    AllocatedIsLeastFree(d.cidr, d.reserved, used);
  }

  lemma AssignedOneMore(ds: seq<Domain>, ns: seq<Node>, used: set<Text>, used': set<Text>, r: seq<Node>)
    requires ns != [] && |r| == |ns| && Assigned(ds, ns[1..], used', r[1..])
    requires ns[0].ip != Blank ==> r[0] == ns[0] && used' == used
    requires ns[0].ip == Blank ==> FreshAt(ds, ns, used, r, 0) && used' == used + {r[0].ip}
    ensures Assigned(ds, ns, used, r)
  {
    forall i | 1 <= i < |ns| ensures ns[i] == ns[1..][i - 1] && r[i] == r[1..][i - 1] {}
    forall i | 1 <= i < |ns| && ns[i].ip == Blank ensures FreshAt(ds, ns, used, r, i) && r[i].ip !in used' {
      assert FreshAt(ds, ns[1..], used', r[1..], i - 1);
      TailIsFresh(ds, ns, used, used', r, i);
    }
    forall i, j | 0 <= i < j < |ns| && ns[i].ip == Blank && ns[j].ip == Blank ensures r[i].ip != r[j].ip {
      if i > 0 { assert r[1..][i - 1].ip != r[1..][j - 1].ip; }
    }
  }

  lemma TailIsFresh(ds: seq<Domain>, ns: seq<Node>, used: set<Text>, used': set<Text>, r: seq<Node>, i: nat)
    requires 1 <= i < |ns| == |r|
    requires used <= used' && forall t :: t in used' ==> t in used || t == r[0].ip
    requires FreshAt(ds, ns[1..], used', r[1..], i - 1)
    ensures FreshAt(ds, ns, used, r, i)
  {
    var d := FindDomain(ds, ns[i].domainId).value;
    assert r[1..][i - 1] == r[i] && ns[1..][i - 1] == ns[i];
    forall m: Address | Assignable(d.cidr, m) && m < r[i].ip.n && Dotted(m) !in used && !IsReserved(d.reserved, m)
      ensures exists j :: 0 <= j < i && r[j].ip == Dotted(m)
    {
      if Dotted(m) in used' {
        assert r[0].ip == Dotted(m);
      } else {
        var j :| 0 <= j < i - 1 && r[1..][j].ip == Dotted(m);
        assert r[j + 1].ip == Dotted(m);
      }
    }
  }

  /**
   * In a successful allocation an address inside its CIDR never changes; every other node gets
   * an assignable, unreserved address, the least free at its turn; and no two nodes share a
   * text unless both kept it.
   */
  lemma FreshAddressesAreDistinct(ds: seq<Domain>, ns: seq<Node>)
    requires Allocate(ds, ns).Ok?
    ensures var r, cleared := Allocate(ds, ns).value, ClearAll(ds, ns);
            && |r| == |ns|
            && (forall i :: 0 <= i < |ns| && cleared[i].ip != Blank ==> r[i] == ns[i])
            && (forall i :: 0 <= i < |ns| && cleared[i].ip == Blank ==> FreshAt(ds, cleared, UsedTexts(cleared), r, i))
            && (forall i, j :: 0 <= i < |ns| && 0 <= j < |ns| && i != j && cleared[i].ip == Blank ==> r[i].ip != r[j].ip)
  {
    var cleared := ClearAll(ds, ns);
    AssignResult(ds, cleared, UsedTexts(cleared));
    var r := Allocate(ds, ns).value;
    forall i, j | 0 <= i < |ns| && 0 <= j < |ns| && i != j && cleared[i].ip == Blank
      ensures r[i].ip != r[j].ip
    {
      if cleared[j].ip != Blank { assert r[j].ip in UsedTexts(cleared); }
    }
  }

  /** A fresh address is shared, as an address, only with a kept one in non-canonical spelling. */
  lemma SharedOnlyWithAlias(ds: seq<Domain>, ns: seq<Node>, i: nat, j: nat)
    requires Allocate(ds, ns).Ok? && i < |ns| && j < |ns| && i != j
    requires ClearNode(ds, ns[i]).ip == Blank
    ensures var r := Allocate(ds, ns).value;
            |r| == |ns| && (ParseIP(r[i].ip) == ParseIP(r[j].ip) ==> r[j].ip.Alias? && r[j] == ns[j])
  {
    FreshAddressesAreDistinct(ds, ns);
    var cleared, r := ClearAll(ds, ns), Allocate(ds, ns).value;
    assert FreshAt(ds, cleared, UsedTexts(cleared), r, i);
    if cleared[j].ip == Blank { assert FreshAt(ds, cleared, UsedTexts(cleared), r, j); }
  }

  /** `v` is the first value node `i` may be given: no text in use, kept or handed out before, spells it canonically. */
  ghost predicate NextFree(ds: seq<Domain>, ns: seq<Node>, r: seq<Node>, i: nat, v: Address)
    requires i < |r| == |ns|
  {
    var d := FindDomain(ds, ns[i].domainId);
    d.Some? && OpenFor(d.value, ns, r, i, v)
    && forall m: Address :: m < v ==> !OpenFor(d.value, ns, r, i, m)
  }

  ghost predicate OpenFor(d: Domain, ns: seq<Node>, r: seq<Node>, i: nat, v: Address)
    requires i < |r| == |ns|
  {
    && Assignable(d.cidr, v) && !IsReserved(d.reserved, v)
    && Dotted(v) !in UsedTexts(ns) && forall k :: 0 <= k < i ==> r[k].ip != Dotted(v)
  }

  /** A kept non-canonical spelling of `v` is shared exactly when `v` is the next free value: it blocks nothing. */
  lemma SharedWithAliasIff(ds: seq<Domain>, ns: seq<Node>, i: nat, j: nat)
    requires Allocate(ds, ns).Ok? && i < |ns| && j < |ns| && i != j
    requires ClearNode(ds, ns[i]).ip == Blank && ClearNode(ds, ns[j]).ip.Alias?
    ensures var r := Allocate(ds, ns).value;
            |r| == |ns| && (ParseIP(r[i].ip) == ParseIP(r[j].ip) <==> NextFree(ds, ClearAll(ds, ns), r, i, ns[j].ip.n))
  {
    FreshAddressesAreDistinct(ds, ns);
    var cleared, r := ClearAll(ds, ns), Allocate(ds, ns).value;
    assert FreshAt(ds, cleared, UsedTexts(cleared), r, i);
    FreshIsNextFree(ds, cleared, r, i);
    var n, v := r[i].ip.n, ns[j].ip.n;
    assert r[j] == ns[j];
    if NextFree(ds, cleared, r, i, v) {
      assert n == v;
    }
  }

  lemma FreshIsNextFree(ds: seq<Domain>, ns: seq<Node>, r: seq<Node>, i: nat)
    requires i < |r| == |ns| && FreshAt(ds, ns, UsedTexts(ns), r, i)
    requires forall k :: 0 <= k < i ==> r[k].ip != r[i].ip
    ensures NextFree(ds, ns, r, i, r[i].ip.n)
  {
  }

  const SMALL_NET := V4(0x0a00_0000, 2)

  lemma SmallNetAllocates(used: set<Text>)
    requires Dotted(0x0a00_0001) !in used
    ensures AllocateFrom(SMALL_NET, [], used) == Ok(0x0a00_0001)
  {
    assert Pow2(2) == 4 && Network(0x0a00_0000, 2) == 0x0a00_0000;
    assert Free(0x0a00_0000, 1, [], used);
  }

  /** That exception is real: a kept IPv4-mapped spelling does not block its own address. */
  lemma AliasIsHandedOutAgain()
    ensures var kept := Node("a", "d", Alias(0x0a00_0001, "::ffff:10.0.0.1"));
            Allocate([Domain("d", SMALL_NET, [])], [kept, Node("b", "d", Blank)]) ==
            Ok([kept, Node("b", "d", Dotted(0x0a00_0001))])
  {
    var ds := [Domain("d", SMALL_NET, [])];
    var a, b := Node("a", "d", Alias(0x0a00_0001, "::ffff:10.0.0.1")), Node("b", "d", Blank);
    var ns := [a, b];
    assert Pow2(2) == 4 && Network(0x0a00_0000, 2) == 0x0a00_0000;
    assert FindDomain(ds, "d") == Some(ds[0]);
    assert ClearNode(ds, a) == a && ClearNode(ds, b) == b;
    assert ClearAll(ds, ns) == ns;
    var used := UsedTexts(ns);
    SmallNetAllocates(used);
    var b' := b.(ip := Dotted(0x0a00_0001));
    assert ns[1..] == [b] && [b][1..] == [];
    assert Assign(ds, [], used + {b'.ip}) == Ok([]);
    assert Assign(ds, [b], used) == Prepend([b'], Ok([]));
    assert [b'] + [] == [b'] && [a] + [b'] == [a, b'];
  }

  // ---------------------------------------------------------------- stability

  lemma {:induction false} AssignComplete(ds: seq<Domain>, ns: seq<Node>, used: set<Text>)
    requires forall i :: 0 <= i < |ns| ==> ns[i].ip != Blank
    ensures Assign(ds, ns, used) == Ok(ns)
    decreases |ns|
  {
    if ns != [] {
      AssignComplete(ds, ns[1..], used);
      assert [ns[0]] + ns[1..] == ns;
    }
  }

  /** Allocating again over the result changes nothing. */
  lemma AllocationIsIdempotent(ds: seq<Domain>, ns: seq<Node>)
    requires Allocate(ds, ns).Ok?
    ensures Allocate(ds, Allocate(ds, ns).value) == Allocate(ds, ns)
  {
    FreshAddressesAreDistinct(ds, ns);
    var cleared, r := ClearAll(ds, ns), Allocate(ds, ns).value;
    forall i | 0 <= i < |r|
      ensures ClearNode(ds, r[i]) == r[i] && r[i].ip != Blank
    {
      if cleared[i].ip == Blank { assert FreshAt(ds, cleared, UsedTexts(cleared), r, i); }
    }
    assert ClearAll(ds, r) == r;
    AssignComplete(ds, r, UsedTexts(r));
  }

  lemma {:induction false} AssignAppend(ds: seq<Domain>, a: seq<Node>, b: seq<Node>, used: set<Text>)
    requires Assign(ds, a + b, used).Ok?
    ensures |Assign(ds, a + b, used).value| >= |a|
    ensures Assign(ds, a, used) == Ok(Assign(ds, a + b, used).value[..|a|])
    decreases |a|
  {
    if a != [] {
      assert (a + b)[0] == a[0] && (a + b)[1..] == a[1..] + b;
      var used' := used;
      if a[0].ip == Blank {
        var d := FindDomain(ds, a[0].domainId).value;
        used' := used + {Dotted(AllocateFrom(d.cidr, d.reserved, used).value)};
      }
      AssignAppend(ds, a[1..], b, used');
      var r, tail := Assign(ds, a + b, used).value, Assign(ds, a[1..] + b, used').value;
      assert r == [r[0]] + tail;
      assert r[..|a|] == [r[0]] + tail[..|a| - 1];
    }
  }

  /** Appending nodes without addresses leaves every earlier node's address as it was. */
  lemma AppendingIsStable(ds: seq<Domain>, ns: seq<Node>, extra: seq<Node>)
    requires forall i :: 0 <= i < |extra| ==> extra[i].ip == Blank
    requires Allocate(ds, ns + extra).Ok?
    ensures |Allocate(ds, ns + extra).value| >= |ns|
    ensures Allocate(ds, ns) == Ok(Allocate(ds, ns + extra).value[..|ns|])
  {
    var a, b := ClearAll(ds, ns), ClearAll(ds, extra);
    assert ClearAll(ds, ns + extra) == a + b;
    assert UsedTexts(a + b) == UsedTexts(a) by {
      forall t | t in UsedTexts(a)
        ensures t in UsedTexts(a + b)
      {
        var i :| 0 <= i < |a| && a[i].ip != Blank && a[i].ip == t;
        assert (a + b)[i].ip == t;
      }
    }
    AssignAppend(ds, a, b, UsedTexts(a));
  }

  // ---------------------------------------------------------------- completeness

  function Blanks(ns: seq<Node>): nat {
    if ns == [] then 0 else (if ns[0].ip == Blank then 1 else 0) + Blanks(ns[1..])
  }

  /** The domains of the nodes still lacking an address all have at least `n` unreserved hosts. */
  ghost predicate Roomy(ds: seq<Domain>, ns: seq<Node>, n: nat) {
    forall i :: 0 <= i < |ns| && ns[i].ip == Blank ==>
      var d := FindDomain(ds, ns[i].domainId);
      d.Some? && Refusal(d.value.cidr).None? && |Unreserved(d.value.cidr, d.value.reserved)| >= n
  }

  lemma {:induction false} AssignSucceeds(ds: seq<Domain>, ns: seq<Node>, used: set<Text>, n: nat)
    requires Roomy(ds, ns, n) && |used| + Blanks(ns) <= n
    ensures Assign(ds, ns, used).Ok?
    decreases |ns|
  {
    if ns != [] {
      if ns[0].ip == Blank {
        var d := FindDomain(ds, ns[0].domainId).value;
        EnoughHostsSuffice(d.cidr, d.reserved, used);
        AssignSucceeds(ds, ns[1..], used + {Dotted(AllocateFrom(d.cidr, d.reserved, used).value)}, n);
      } else {
        AssignSucceeds(ds, ns[1..], used, n);
      }
    }
  }

  lemma {:induction false} UsedAndBlank(ns: seq<Node>)
    ensures |UsedTexts(ns)| + Blanks(ns) <= |ns|
    decreases |ns|
  {
    if ns != [] {
      UsedAndBlank(ns[1..]);
      var more := if ns[0].ip == Blank then {} else {ns[0].ip};
      assert UsedTexts(ns) <= UsedTexts(ns[1..]) + more by {
        forall t | t in UsedTexts(ns)
          ensures t in UsedTexts(ns[1..]) + more
        {
          var i :| 0 <= i < |ns| && ns[i].ip != Blank && ns[i].ip == t;
          if i > 0 { assert ns[1..][i - 1].ip == t; }
        }
      }
      SubsetIsSmaller(UsedTexts(ns), UsedTexts(ns[1..]) + more);
    }
  }

  lemma {:induction false} SubsetIsSmaller(a: set<Text>, b: set<Text>)
    requires a <= b
    ensures |a| <= |b|
    decreases a
  {
    if a != {} {
      var x :| x in a;
      SubsetIsSmaller(a - {x}, b - {x});
    }
  }

  /**
   * If every domain that must supply an address has at least as many unreserved hosts as the
   * topology has nodes, and none is refused outright, allocation succeeds.
   */
  lemma AllocationSucceeds(ds: seq<Domain>, ns: seq<Node>)
    requires Roomy(ds, ClearAll(ds, ns), |ns|)
    ensures Allocate(ds, ns).Ok?
  {
    var cleared := ClearAll(ds, ns);
    UsedAndBlank(cleared);
    AssignSucceeds(ds, cleared, UsedTexts(cleared), |ns|);
  }
}
