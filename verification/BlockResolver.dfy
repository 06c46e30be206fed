/** The passes that give every block device its series id. */
module BlockResolver {
  import opened Common
  import opened BlockIdentity

  method IndexByPath(blocks: seq<Block>) returns (byPath: map<string, int>)
    requires forall i, j :: 0 <= i < j < |blocks| ==> blocks[i].realPath != blocks[j].realPath
    ensures IndexedByPath(blocks, byPath)
  {
    byPath := map[];
    for k := 0 to |blocks|
      invariant forall p :: p in byPath ==> 0 <= byPath[p] < k && blocks[byPath[p]].realPath == p
      invariant forall i :: 0 <= i < k ==> blocks[i].realPath in byPath && byPath[blocks[i].realPath] == i
    {
      byPath := byPath[blocks[k].realPath := k];
    }
  }

  // ---------------------------------------------------------------- the identity a device starts from

  function FirstIdentity(h: Host, i: int): (x: Identity)
    requires WellFormed(h) && 0 <= i < |h.blocks|
    ensures Own(h, i, x)
    decreases |h.blocks[i].realPath|
  {
    FirstOfIsStrong(Sources, h.blocks[i].attributes);
    if StrongOf(h.blocks[i]).Some? then StrongOf(h.blocks[i]).value
    else if HasParent(h, i) then
      Partition(SeriesId(h, Some(FirstIdentity(h, ParentOf(h, i)))), h.blocks[i].partition)
    else FallbackOf(h.blocks[i])
  }

  /** What is resolved so far is resolved as it should be. */
  ghost predicate StartsRight(h: Host, st: State)
    requires WellFormed(h) && |st| == |h.blocks|
  {
    forall i :: 0 <= i < |st| && st[i].Some? ==> st[i].value == FirstIdentity(h, i)
  }

  // ---------------------------------------------------------------- counting ids

  function Ids(h: Host, st: State): seq<string> {
    seq(|st|, i requires 0 <= i < |st| => SeriesId(h, st[i]))
  }

  lemma CountTells(ids: seq<string>, i: int)
    requires 0 <= i < |ids|
    ensures multiset(ids)[ids[i]] > 1 <==> exists j :: 0 <= j < |ids| && j != i && ids[j] == ids[i]
  {
    var others := ids[..i] + ids[i + 1..];
    assert ids == ids[..i] + [ids[i]] + ids[i + 1..];
    assert multiset(ids)[ids[i]] == multiset(others)[ids[i]] + 1;
    if multiset(ids)[ids[i]] > 1 {
      assert ids[i] in others;
      var k :| 0 <= k < |others| && others[k] == ids[i];
      var j := if k < i then k else k + 1;
      assert ids[j] == ids[i];
    }
    if j :| 0 <= j < |ids| && j != i && ids[j] == ids[i] {
      assert others[if j < i then j else j - 1] == ids[j];
    }
  }

  function CountOf(counts: map<string, nat>, s: string): nat {
    if s in counts then counts[s] else 0
  }

  /** The counts are those of the ids, the missing ones left out. */
  ghost predicate Counts(counts: map<string, nat>, ids: seq<string>) {
    forall s :: s != "" ==> CountOf(counts, s) == multiset(ids)[s]
  }

  lemma CountsOneMore(counts: map<string, nat>, ids: seq<string>, id: string)
    requires Counts(counts, ids)
    ensures Counts(if id == "" then counts else counts[id := CountOf(counts, id) + 1], ids + [id])
  {
    var next := if id == "" then counts else counts[id := CountOf(counts, id) + 1];
    forall s | s != "" ensures CountOf(next, s) == multiset(ids + [id])[s] {
      assert CountOf(counts, s) == multiset(ids)[s];
    }
  }

  method CountSeries(h: Host, st: State) returns (counts: map<string, nat>)
    ensures Counts(counts, Ids(h, st))
  {
    counts := map[];
    ghost var ids := Ids(h, st);
    for k := 0 to |st|
      invariant Counts(counts, ids[..k])
    {
      var id := SeriesId(h, st[k]);
      CountsOneMore(counts, ids[..k], id);
      assert ids[..k + 1] == ids[..k] + [id];
      if id != "" {
        counts := counts[id := CountOf(counts, id) + 1];
      }
    }
    assert ids[..|st|] == ids;
  }

  lemma CountIsShared(h: Host, st: State, i: int)
    requires 0 <= i < |st| && st[i].Some?
    ensures multiset(Ids(h, st))[SeriesId(h, st[i])] > 1 <==> Shared(h, st, i)
  {
    CountTells(Ids(h, st), i);
    SharedIsRepeated(h, st, i);
  }

  lemma SharedIsRepeated(h: Host, st: State, i: int)
    requires 0 <= i < |st| && st[i].Some?
    ensures Shared(h, st, i) <==> exists j :: 0 <= j < |st| && j != i && Ids(h, st)[j] == Ids(h, st)[i]
  {
    var ids := Ids(h, st);
    if Shared(h, st, i) {
      var j :| 0 <= j < |st| && j != i && SeriesId(h, st[j]) == SeriesId(h, st[i]);
      assert ids[j] == ids[i];
    }
    if j :| 0 <= j < |st| && j != i && ids[j] == ids[i] {
      assert SeriesId(h, st[j]) == SeriesId(h, st[i]);
    }
  }

  // ---------------------------------------------------------------- one pass over the partitions

  /** Finished partitions follow parents that will not change any more. */
  ghost predicate Finished(h: Host, st: State, done: set<string>)
    requires WellFormed(h) && |st| == |h.blocks|
  {
    forall j :: 0 <= j < |st| && h.blocks[j].realPath in done && IsPartition(st[j]) ==> FinishedAt(h, st, done, j)
  }

  predicate FinishedAt(h: Host, st: State, done: set<string>, j: int)
    requires |st| == |h.blocks| && 0 <= j < |st|
  {
    FollowsParent(h, st, j) && (IsPartition(st[ParentOf(h, j)]) ==> h.blocks[ParentOf(h, j)].realPath in done)
  }

  ghost predicate SameKinds(st: State, next: State) {
    && |next| == |st|
    && forall i :: 0 <= i < |st| ==> (IsPartition(next[i]) <==> IsPartition(st[i])) && (!IsPartition(st[i]) ==> next[i] == st[i])
  }

  /** Finishing one more partition disturbs none that is finished. */
  lemma FinishOne(h: Host, st: State, done: set<string>, i: int)
    requires WellFormed(h) && |st| == |h.blocks| && Finished(h, st, done)
    requires 0 <= i < |st| && IsPartition(st[i]) && h.blocks[i].realPath !in done && HasParent(h, i)
    requires IsPartition(st[ParentOf(h, i)]) ==> h.blocks[ParentOf(h, i)].realPath in done
    ensures var x := Partition(SeriesId(h, st[ParentOf(h, i)]), h.blocks[i].partition);
            Finished(h, st[i := Some(x)], done + {h.blocks[i].realPath})
  {
    var p, path := ParentOf(h, i), h.blocks[i].realPath;
    var next := st[i := Some(Partition(SeriesId(h, st[p]), h.blocks[i].partition))];
    assert p != i;
    forall j | 0 <= j < |next| && h.blocks[j].realPath in done + {path} && IsPartition(next[j])
      ensures FinishedAt(h, next, done + {path}, j)
    {
      if j != i {
        assert h.blocks[j].realPath != path;
        assert FinishedAt(h, st, done, j);
      }
    }
  }

  // ---------------------------------------------------------------- all passes together

  lemma OwnStateGrows(h: Host, st: State, seen: set<Identity>, more: set<Identity>)
    requires OwnState(h, st, seen) && seen <= more
    ensures OwnState(h, st, more)
  {
  }

  /** The last separation finds nothing to do. */
  lemma LastPassIsIdle(h: Host, seen: set<Identity>, first: State, parted: State, last: State, end: State)
    requires WellFormed(h) && CollisionFree(h, seen)
    requires OwnState(h, first, seen) && Coherent(h, first) && Separated(h, first, parted)
    requires OwnState(h, last, seen) && Refreshed(h, parted, last) && Separated(h, last, end)
    ensures end == last && Distinct(h, last)
  {
    forall i | 0 <= i < |last| ensures !Shared(h, last, i) && end[i] == last[i] {
      assert SeparatedAt(h, last, end, i);
      if last[i].Some? {
        forall j | 0 <= j < |last| && j != i ensures SeriesId(h, last[j]) != SeriesId(h, last[i]) {
          NoTwins(h, seen, first, parted, last, i, j);
        }
      }
    }
  }

  /**
   * Another device reports the same strong identity. A whole device gives
   * way to any other; a partition only to other partitions.
   */
  predicate Contested(h: Host, i: int)
    requires 0 <= i < |h.blocks|
  {
    exists j :: 0 <= j < |h.blocks| && j != i && StrongOf(h.blocks[j]) == StrongOf(h.blocks[i])
      && (h.blocks[i].partition == 0 || h.blocks[j].partition > 0)
  }

  ghost predicate Rekeyed(h: Host, st: State, next: State)
    requires |st| == |h.blocks|
  {
    |next| == |st| && forall i :: 0 <= i < |st| ==> RekeyedAt(h, st, next, i)
  }

  ghost predicate RekeyedAt(h: Host, st: State, next: State, i: int)
    requires |st| == |h.blocks| == |next| && 0 <= i < |st|
  {
    next[i] == if h.blocks[i].partition == 0 && Shared(h, st, i) then Some(FallbackOf(h.blocks[i])) else st[i]
  }

  lemma SeparatedPrefix(h: Host, st: State, before: State, next: State, i: int)
    requires |st| == |h.blocks| == |before| == |next| && 0 <= i < |st|
    requires forall j :: 0 <= j < i ==> SeparatedAt(h, st, before, j) && next[j] == before[j]
    requires SeparatedAt(h, st, next, i)
    ensures forall j :: 0 <= j < i + 1 ==> SeparatedAt(h, st, next, j)
  {
    forall j | 0 <= j < i ensures SeparatedAt(h, st, next, j) { assert SeparatedAt(h, st, before, j); }
  }

  lemma RekeyedPrefix(h: Host, st: State, before: State, next: State, i: int)
    requires |st| == |h.blocks| == |before| == |next| && 0 <= i < |st|
    requires forall j :: 0 <= j < i ==> RekeyedAt(h, st, before, j) && next[j] == before[j]
    requires RekeyedAt(h, st, next, i)
    ensures forall j :: 0 <= j < i + 1 ==> RekeyedAt(h, st, next, j)
  {
    forall j | 0 <= j < i ensures RekeyedAt(h, st, next, j) { assert RekeyedAt(h, st, before, j); }
  }

  /** A strong identity is shared exactly with the devices that hold the same one. */
  lemma SharedIsSame(h: Host, seen: set<Identity>, st: State, i: int)
    requires WellFormed(h) && CollisionFree(h, seen) && OwnState(h, st, seen) && 0 <= i < |st| && st[i].Some?
    ensures Shared(h, st, i) <==> exists j :: 0 <= j < |st| && j != i && st[j] == st[i]
  {
    forall j | 0 <= j < |st| && st[j].Some? ensures SeriesId(h, st[j]) == SeriesId(h, st[i]) <==> st[j] == st[i] {
      SameIdSameIdentity(h, seen, st[j].value, st[i].value);
    }
    assert forall j :: 0 <= j < |st| && st[j].None? ==> SeriesId(h, st[j]) == "";
  }

  lemma StrongAfterRekey(h: Host, seen: set<Identity>, start: State, rekeyed: State, i: int)
    requires WellFormed(h) && CollisionFree(h, seen) && OwnState(h, start, seen) && Rekeyed(h, start, rekeyed)
    requires StartsRight(h, start) && forall j :: 0 <= j < |start| ==> start[j].Some?
    requires 0 <= i < |start| && StrongOf(h.blocks[i]).Some?
    ensures rekeyed[i] == if h.blocks[i].partition == 0 && Contested(h, i) then Some(FallbackOf(h.blocks[i])) else StrongOf(h.blocks[i])
  {
    FirstOfIsStrong(Sources, h.blocks[i].attributes);
    assert start[i] == StrongOf(h.blocks[i]);
    assert RekeyedAt(h, start, rekeyed, i);
    SharedIsSame(h, seen, start, i);
    forall j | 0 <= j < |start| ensures start[j] == start[i] <==> StrongOf(h.blocks[j]) == StrongOf(h.blocks[i]) {
      FirstOfIsStrong(Sources, h.blocks[j].attributes);
      assert Own(h, j, start[j].value);
      assert start[j].value == FirstIdentity(h, j);
    }
  }

  ghost predicate StrongSettled(h: Host, first: State)
    requires |first| == |h.blocks|
  {
    forall i :: 0 <= i < |first| && StrongOf(h.blocks[i]).Some? ==>
      first[i] == if h.blocks[i].partition == 0 && Contested(h, i) then Some(FallbackOf(h.blocks[i])) else StrongOf(h.blocks[i])
  }

  /** A device without a contested strong identity keeps it, one with a contested one loses it. */
  lemma StrongIffUncontested(h: Host, seen: set<Identity>, first: State, parted: State, last: State, i: int)
    requires WellFormed(h) && CollisionFree(h, seen) && OwnState(h, first, seen) && StrongSettled(h, first)
    requires Separated(h, first, parted) && Refreshed(h, parted, last)
    requires 0 <= i < |last| && StrongOf(h.blocks[i]).Some?
    ensures last[i] == StrongOf(h.blocks[i]) <==> !Contested(h, i)
  {
    FirstOfIsStrong(Sources, h.blocks[i].attributes);
    assert first[i].Some? && !IsPartition(first[i]);
    SharedIsSame(h, seen, first, i);
    assert SeparatedAt(h, first, parted, i);
    if Contested(h, i) && h.blocks[i].partition > 0 {
      var j :| 0 <= j < |h.blocks| && j != i && StrongOf(h.blocks[j]) == StrongOf(h.blocks[i]) && h.blocks[j].partition > 0;
      assert first[j] == first[i];
    }
    if !Contested(h, i) {
      forall j | 0 <= j < |first| && j != i ensures first[j] != first[i] {
        UncontestedIsAlone(h, seen, first, i, j);
      }
    }
  }

  lemma UncontestedIsAlone(h: Host, seen: set<Identity>, first: State, i: int, j: int)
    requires OwnState(h, first, seen) && StrongSettled(h, first)
    requires 0 <= i < |first| && 0 <= j < |first| && j != i
    requires StrongOf(h.blocks[i]).Some? && !Contested(h, i)
    ensures first[j] != first[i]
  {
    FirstOfIsStrong(Sources, h.blocks[i].attributes);
    assert first[i] == StrongOf(h.blocks[i]);
    if StrongOf(h.blocks[j]) == StrongOf(h.blocks[i]) {
      assert h.blocks[j].partition == 0 && Contested(h, j);
    } else if first[j].Some? {
      assert Own(h, j, first[j].value);
    }
  }

  lemma StrongAtEnd(h: Host, seen: set<Identity>, start: State, rekeyed: State, first: State, parted: State, last: State)
    requires WellFormed(h) && CollisionFree(h, seen) && OwnState(h, start, seen) && OwnState(h, first, seen)
    requires StartsRight(h, start) && forall j :: 0 <= j < |start| ==> start[j].Some?
    requires Rekeyed(h, start, rekeyed) && Refreshed(h, rekeyed, first)
    requires Separated(h, first, parted) && Refreshed(h, parted, last)
    ensures forall i :: 0 <= i < |last| && StrongOf(h.blocks[i]).Some? ==>
              (last[i] == StrongOf(h.blocks[i]) <==> !Contested(h, i))
  {
    forall i | 0 <= i < |first| && StrongOf(h.blocks[i]).Some?
      ensures first[i] == if h.blocks[i].partition == 0 && Contested(h, i) then Some(FallbackOf(h.blocks[i])) else StrongOf(h.blocks[i])
    {
      FirstOfIsStrong(Sources, h.blocks[i].attributes);
      StrongAfterRekey(h, seen, start, rekeyed, i);
    }
    forall i | 0 <= i < |last| && StrongOf(h.blocks[i]).Some?
      ensures last[i] == StrongOf(h.blocks[i]) <==> !Contested(h, i)
    {
      StrongIffUncontested(h, seen, first, parted, last, i);
    }
  }

  /** How a run may leave the devices. */
  ghost predicate Settled(h: Host, seen: set<Identity>, end: State, complete: bool)
    requires WellFormed(h) && |end| == |h.blocks|
  {
    && (CollisionFree(h, seen) ==> Distinct(h, end) && Coherent(h, end))
    && (complete ==> forall i :: 0 <= i < |end| ==> end[i].Some?)
    && (complete && CollisionFree(h, seen) ==>
          forall i :: 0 <= i < |end| && StrongOf(h.blocks[i]).Some? ==>
            (end[i] == StrongOf(h.blocks[i]) <==> !Contested(h, i)))
  }

  /** The passes as relations between the states they go through. */
  ghost predicate Passes(h: Host, first: State, parted: State, last: State, end: State)
    requires WellFormed(h)
  {
    && |first| == |h.blocks| && Coherent(h, first) && Separated(h, first, parted)
    && Refreshed(h, parted, last) && Separated(h, last, end)
  }

  lemma ResolvedStays(h: Host, start: State, rekeyed: State, first: State, parted: State, last: State, end: State)
    requires WellFormed(h) && |start| == |h.blocks| && forall j :: 0 <= j < |start| ==> start[j].Some?
    requires Rekeyed(h, start, rekeyed) && Refreshed(h, rekeyed, first) && Passes(h, first, parted, last, end)
    ensures forall i :: 0 <= i < |end| ==> end[i].Some?
  {
    forall i | 0 <= i < |end| ensures end[i].Some? {
      assert RekeyedAt(h, start, rekeyed, i) && SeparatedAt(h, first, parted, i) && SeparatedAt(h, last, end, i);
    }
  }

  lemma PassesSettle(h: Host, seen: set<Identity>, start: State, rekeyed: State,
                     first: State, parted: State, last: State, end: State, complete: bool)
    requires WellFormed(h)
    requires OwnState(h, start, seen) && OwnState(h, first, seen) && OwnState(h, last, seen)
    requires complete ==> StartsRight(h, start) && (forall j :: 0 <= j < |start| ==> start[j].Some?) && Rekeyed(h, start, rekeyed)
    requires |rekeyed| == |h.blocks| && Refreshed(h, rekeyed, first) && Passes(h, first, parted, last, end)
    ensures Settled(h, seen, end, complete)
  {
    if complete { ResolvedStays(h, start, rekeyed, first, parted, last, end); }
    if CollisionFree(h, seen) {
      LastPassIsIdle(h, seen, first, parted, last, end);
      if complete { StrongAtEnd(h, seen, start, rekeyed, first, parted, last); }
    }
  }

  class Resolver {
    const host: Host
    var state: State
    /** The context is done; it stays done. */
    var cancelled: bool
    /** Devices a pass over the partitions is finished with. */
    var done: set<string>
    /** Every identity given to a device so far. */
    ghost var seen: set<Identity>

    ghost predicate Valid()
      reads this
    {
      WellFormed(host) && OwnState(host, state, seen)
    }

    constructor (host: Host)
      requires WellFormed(host)
      ensures Valid() && this.host == host && !cancelled
      ensures state == seq(|host.blocks|, _ => None)
    {
      this.host := host;
      state := seq(|host.blocks|, _ => None);
      cancelled := false;
      done := {};
      seen := {};
    }

    method Poll() returns (stop: bool)
      modifies this`cancelled
      ensures stop == cancelled && (old(cancelled) ==> cancelled)
    {
      var now: bool := *;
      cancelled := cancelled || now;
      stop := cancelled;
    }

    method Give(i: int, x: Identity)
      requires Valid() && 0 <= i < |state| && Own(host, i, x)
      modifies this`state, this`seen
      ensures Valid() && state == old(state)[i := Some(x)] && seen == old(seen) + {x}
    {
      state := state[i := Some(x)];
      seen := seen + {x};
    }

    /** Resolves a device, its parents first; whatever has an id keeps it. */
    method Resolve(i: int)
      requires Valid() && 0 <= i < |state|
      requires !cancelled ==> StartsRight(host, state)
      modifies this`state, this`seen, this`cancelled
      ensures Valid() && old(seen) <= seen && (old(cancelled) ==> cancelled)
      ensures forall j :: 0 <= j < |state| && old(state)[j].Some? ==> state[j] == old(state)[j]
      ensures !cancelled ==> StartsRight(host, state) && state[i].Some?
      decreases |host.blocks[i].realPath|
    {
      var b := host.blocks[i];
      var stop := Poll();
      if stop || state[i].Some? { return; }
      for k := 0 to |Sources|
        invariant Valid() && state == old(state) && seen == old(seen)
        invariant (old(cancelled) ==> cancelled) && (!cancelled ==> StartsRight(host, state))
        invariant StrongOf(b) == FirstOf(Sources[k..], b.attributes)
      {
        stop := Poll();
        if stop { return; }
        if Sources[k] in b.attributes {
          Give(i, Strong(Sources[k], b.attributes[Sources[k]]));
          return;
        }
        assert Sources[k..][1..] == Sources[k + 1..];
      }
      assert StrongOf(b).None?;
      if b.partition > 0 && b.parentPath in host.byPath {
        var parent := host.byPath[b.parentPath];
        Resolve(parent);
        Give(i, Partition(SeriesId(host, state[parent]), b.partition));
      } else {
        Give(i, FallbackOf(b));
      }
    }

    method ResolveAll()
      requires Valid() && StartsRight(host, state)
      modifies this`state, this`seen, this`cancelled
      ensures Valid() && old(seen) <= seen && (old(cancelled) ==> cancelled)
      ensures !cancelled ==> StartsRight(host, state) && forall i :: 0 <= i < |state| ==> state[i].Some?
    {
      for i := 0 to |state|
        invariant Valid() && old(seen) <= seen && (old(cancelled) ==> cancelled)
        invariant !cancelled ==> StartsRight(host, state) && forall j :: 0 <= j < i ==> state[j].Some?
      {
        var stop := Poll();
        if stop { break; }
        Resolve(i);
      }
    }

    /** Whole devices that share an id with another are re-keyed first. */
    method Rekey()
      requires Valid()
      modifies this`state, this`seen, this`cancelled
      ensures Valid() && old(seen) <= seen && (old(cancelled) ==> cancelled)
      ensures !cancelled ==> Rekeyed(host, old(state), state)
    {
      var counts := CountSeries(host, state);
      for i := 0 to |state|
        invariant Valid() && old(seen) <= seen && (old(cancelled) ==> cancelled) && !cancelled == !old(cancelled)
        invariant forall j :: i <= j < |state| ==> state[j] == old(state)[j]
        invariant forall j :: 0 <= j < i ==> RekeyedAt(host, old(state), state, j)
      {
        ghost var before := state;
        var stop := Poll();
        if stop { break; }
        var id := SeriesId(host, state[i]);
        if state[i].Some? { CountIsShared(host, old(state), i); }
        if host.blocks[i].partition == 0 && id != "" && CountOf(counts, id) > 1 {
          Give(i, FallbackOf(host.blocks[i]));
        }
        RekeyedPrefix(host, old(state), before, state, i);
      }
    }

    /** Every device that shares an id with another falls back. */
    method SeparateDuplicates()
      requires Valid()
      modifies this`state, this`seen
      ensures Valid() && old(seen) <= seen && Separated(host, old(state), state)
    {
      var counts := CountSeries(host, state);
      for i := 0 to |state|
        invariant Valid() && old(seen) <= seen
        invariant forall j :: i <= j < |state| ==> state[j] == old(state)[j]
        invariant forall j :: 0 <= j < i ==> SeparatedAt(host, old(state), state, j)
      {
        ghost var before := state;
        var id := SeriesId(host, state[i]);
        if state[i].Some? { CountIsShared(host, old(state), i); }
        if id != "" && CountOf(counts, id) > 1 {
          Give(i, FallbackOf(host.blocks[i]));
        }
        SeparatedPrefix(host, old(state), before, state, i);
      }
    }

    /** Derives a partition's id anew, its parent's first. */
    method Refresh(i: int)
      requires Valid() && 0 <= i < |state| && Finished(host, state, done)
      modifies this`state, this`seen, this`done
      ensures Valid() && old(seen) <= seen && old(done) <= done
      ensures Finished(host, state, done) && SameKinds(old(state), state)
      ensures IsPartition(state[i]) ==> host.blocks[i].realPath in done
      ensures forall p :: p in done && p !in old(done) ==> |p| <= |host.blocks[i].realPath|
      decreases |host.blocks[i].realPath|
    {
      var b := host.blocks[i];
      if b.realPath in done || !IsPartition(state[i]) { return; }
      if b.parentPath in host.byPath {
        var parent := host.byPath[b.parentPath];
        Refresh(parent);
        FinishOne(host, state, done, i);
        Give(i, Partition(SeriesId(host, state[parent]), b.partition));
      }
      done := done + {b.realPath};
    }

    method RecomputePartitions()
      requires Valid()
      modifies this`state, this`seen, this`done
      ensures Valid() && old(seen) <= seen && Refreshed(host, old(state), state)
    {
      done := {};
      for i := 0 to |state|
        invariant Valid() && old(seen) <= seen
        invariant Finished(host, state, done) && SameKinds(old(state), state)
        invariant forall j :: 0 <= j < i && IsPartition(state[j]) ==> host.blocks[j].realPath in done
      {
        Refresh(i);
      }
      forall i | 0 <= i < |state| && IsPartition(state[i]) ensures FollowsParent(host, state, i) {
        assert FinishedAt(host, state, done, i);
      }
    }

    /**
     * The whole resolution, interrupted anywhere or not. Barring a digest
     * collision among the identities it hashed, no two devices end with one
     * id and every partition's id follows the id its parent ends with.
     */
    method ResolveIdentities()
      requires Valid() && StartsRight(host, state)
      modifies this
      ensures Valid()
      ensures Settled(host, seen, state, !cancelled)
    {
      ResolveAll();
      ghost var start, startSeen := state, seen;
      Rekey();
      ghost var rekeyed := state;
      RecomputePartitions();
      ghost var first, firstSeen := state, seen;
      SeparateDuplicates();
      ghost var parted := state;
      RecomputePartitions();
      ghost var last, lastSeen := state, seen;
      SeparateDuplicates();
      OwnStateGrows(host, start, startSeen, seen);
      OwnStateGrows(host, first, firstSeen, seen);
      OwnStateGrows(host, last, lastSeen, seen);
      PassesSettle(host, seen, start, rekeyed, first, parted, last, state, !cancelled);
    }
  }
}
