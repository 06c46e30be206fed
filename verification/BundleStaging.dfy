/** Writing a bundle's files into the staging directory, one after another. */
module BundleStaging {
  import opened Common
  import opened SlashPaths
  import opened BundlePaths

  type Place = seq<string>

  datatype Entry = Folder | File(content: Bytes)

  /** The staging directory: what stands at each place below it. */
  type Tree = map<Place, Entry>

  datatype Item = Item(place: Place, content: Bytes)

  function MkdirAll(t: Tree, d: Place): Option<Tree>
    decreases |d|
  {
    if d == [] then Some(t)
    else if d in t then (if t[d].Folder? then Some(t) else None)
    else
      match MkdirAll(t, d[..|d| - 1])
      case None => None
      case Some(u) => Some(u[d := Folder])
  }

  function WriteFile(t: Tree, place: Place, content: Bytes): Option<Tree> {
    if place in t && t[place].Folder? then None else Some(t[place := File(content)])
  }

  /** One file: its parent directories, then its bytes. */
  function Put(t: Tree, item: Item): Option<Tree>
    requires item.place != []
  {
    match MkdirAll(t, item.place[..|item.place| - 1])
    case None => None
    case Some(u) => WriteFile(u, item.place, item.content)
  }

  predicate Placed(items: seq<Item>) {
    forall i :: 0 <= i < |items| ==> items[i].place != []
  }

  function PutAll(t: Tree, items: seq<Item>): Option<Tree>
    requires Placed(items)
    decreases |items|
  {
    if items == [] then Some(t)
    else
      match Put(t, items[0])
      case None => None
      case Some(u) => PutAll(u, items[1..])
  }

  // ---------------------------------------------------------------- trees

  /** k is d, or a directory above it. */
  predicate OnPath(k: Place, d: Place) {
    k != [] && k <= d
  }

  /** Everything stands in a directory. */
  ghost predicate WellFormed(t: Tree) {
    && [] !in t
    && forall k, j :: j in t && OnPath(k, j) && k != j ==> k in t && t[k].Folder?
  }

  /** What was there stays what it was, a file perhaps with other bytes. */
  ghost predicate Extends(t: Tree, u: Tree) {
    forall k :: k in t ==> k in u && (t[k].Folder? <==> u[k].Folder?)
  }

  ghost predicate Blocked(t: Tree, d: Place) {
    exists k :: k in t && OnPath(k, d) && t[k].File?
  }

  lemma OnPathSnoc(d: Place)
    requires d != []
    ensures forall k :: OnPath(k, d) <==> OnPath(k, d[..|d| - 1]) || k == d
  {
    forall k | OnPath(k, d) && k != d ensures OnPath(k, d[..|d| - 1]) {
      assert d[..|d| - 1][..|k|] == d[..|k|];
    }
  }

  /** t with the directory d, and those above it, made where missing. */
  ghost predicate Made(t: Tree, d: Place, u: Tree) {
    && (forall k :: k in u <==> k in t || OnPath(k, d))
    && (forall k :: k in t ==> u[k] == t[k])
    && (forall k :: k in u && k !in t ==> u[k] == Folder)
  }

  /** MkdirAll fails exactly when a file is in the way; otherwise it adds only what is missing. */
  lemma {:induction false} MkdirAllMakes(t: Tree, d: Place)
    requires WellFormed(t)
    ensures MkdirAll(t, d).Some? <==> !Blocked(t, d)
    ensures MkdirAll(t, d).Some? ==> Made(t, d, MkdirAll(t, d).value)
    decreases |d|
  {
    if d != [] {
      OnPathSnoc(d);
      if d !in t { MkdirAllMakes(t, d[..|d| - 1]); }
    }
  }

  /** Nothing stands in the way of a file at this place. */
  ghost predicate Free(t: Tree, place: Place) {
    && (forall k :: k in t && OnPath(k, place) && k != place ==> t[k].Folder?)
    && (place in t ==> t[place].File?)
  }

  /** t with the file written, and the directories above it made where missing. */
  ghost predicate Written(t: Tree, item: Item, u: Tree) {
    && (forall k :: k in u <==> k in t || OnPath(k, item.place))
    && item.place in u && u[item.place] == File(item.content)
    && (forall k :: k in t && k != item.place ==> u[k] == t[k])
    && (forall k :: k in u && k !in t && k != item.place ==> u[k] == Folder)
  }

  lemma PutWrites(t: Tree, item: Item)
    requires WellFormed(t) && item.place != []
    ensures Put(t, item).Some? <==> Free(t, item.place)
    ensures Put(t, item).Some? ==> Written(t, item, Put(t, item).value)
  {
    var up := item.place[..|item.place| - 1];
    OnPathSnoc(item.place);
    MkdirAllMakes(t, up);
    assert !OnPath(item.place, up);
  }

  lemma WrittenIsWellFormed(t: Tree, item: Item, u: Tree)
    requires WellFormed(t) && Free(t, item.place) && Written(t, item, u) && item.place != []
    ensures WellFormed(u) && Extends(t, u)
  {
    forall k, j | j in u && OnPath(k, j) && k != j ensures k in u && u[k].Folder? {
      if j in t {
        assert k in t && t[k].Folder?;
      } else {
        assert OnPath(k, item.place);
        assert k != item.place;
      }
    }
  }

  // ---------------------------------------------------------------- whole bundles

  /** No file's place is a directory above another's. */
  predicate NoParents(items: seq<Item>) {
    forall i, j :: 0 <= i < |items| && 0 <= j < |items| ==> !(items[i].place < items[j].place)
  }

  /** What a finished run leaves, whatever stood there before. */
  lemma {:induction false} PutAllKeeps(t: Tree, items: seq<Item>)
    requires WellFormed(t) && Placed(items) && PutAll(t, items).Some?
    ensures var u := PutAll(t, items).value;
            && WellFormed(u) && Extends(t, u)
            && forall i :: 0 <= i < |items| ==> items[i].place in u && u[items[i].place].File?
    decreases |items|
  {
    if items != [] {
      PutWrites(t, items[0]);
      var v := Put(t, items[0]).value;
      WrittenIsWellFormed(t, items[0], v);
      PutAllKeeps(v, items[1..]);
      assert forall i :: 1 <= i < |items| ==> items[i] == items[1..][i - 1];
    }
  }

  /** A place on the way to one of the files. */
  predicate Covers(items: seq<Item>, k: Place) {
    items != [] && (OnPath(k, items[|items| - 1].place) || Covers(items[..|items| - 1], k))
  }

  /** What the last file written to a place leaves there; a directory where none was. */
  function Leaves(items: seq<Item>, k: Place): Entry {
    if items == [] then Folder
    else if items[|items| - 1].place == k then File(items[|items| - 1].content)
    else Leaves(items[..|items| - 1], k)
  }

  /** The tree of these files: they, the directories above them, and nothing else. */
  ghost predicate Holds(t: Tree, items: seq<Item>) {
    forall k :: (k in t <==> Covers(items, k)) && (k in t ==> t[k] == Leaves(items, k))
  }

  lemma {:induction false} CoversSome(items: seq<Item>, k: Place) returns (i: int)
    requires Covers(items, k)
    ensures 0 <= i < |items| && OnPath(k, items[i].place)
    decreases |items|
  {
    i := |items| - 1;
    if !OnPath(k, items[i].place) { i := CoversSome(items[..i], k); }
  }

  lemma {:induction false} LeavesSome(items: seq<Item>, k: Place) returns (i: int)
    requires Leaves(items, k).File?
    ensures 0 <= i < |items| && items[i].place == k && Leaves(items, k) == File(items[i].content)
    decreases |items|
  {
    i := |items| - 1;
    if items[i].place != k { i := LeavesSome(items[..i], k); }
  }

  lemma {:induction false} LeavesFile(items: seq<Item>, i: int)
    requires 0 <= i < |items|
    ensures Leaves(items, items[i].place).File?
    decreases |items|
  {
    if i < |items| - 1 { LeavesFile(items[..|items| - 1], i); }
  }

  predicate Apart(p: Place, q: Place) {
    !(p < q) && !(q < p)
  }

  lemma HoldsIsFree(t: Tree, done: seq<Item>, x: Item)
    requires Holds(t, done)
    requires forall i :: 0 <= i < |done| ==> Apart(done[i].place, x.place)
    ensures Free(t, x.place)
  {
    forall k | k in t && OnPath(k, x.place) && k != x.place ensures t[k].Folder? {
      if t[k].File? { var i := LeavesSome(done, k); }
    }
    if x.place in t {
      var i := CoversSome(done, x.place);
      assert Apart(done[i].place, x.place);
      assert done[i].place == x.place;
      LeavesFile(done, i);
    }
  }

  lemma HoldsOneMore(t: Tree, done: seq<Item>, x: Item, u: Tree)
    requires Holds(t, done) && Written(t, x, u)
    ensures Holds(u, done + [x])
  {
    assert (done + [x])[..|done|] == done;
    forall k ensures (k in u <==> Covers(done + [x], k)) && (k in u ==> u[k] == Leaves(done + [x], k)) {
      if k in u && k !in t && k != x.place {
        if Leaves(done, k).File? {
          var i := LeavesSome(done, k);
          CoversEach(done, i);
        }
      }
    }
  }

  lemma {:induction false} CoversEach(items: seq<Item>, i: int)
    requires 0 <= i < |items|
    ensures items[i].place != [] ==> Covers(items, items[i].place)
    decreases |items|
  {
    if i < |items| - 1 { CoversEach(items[..|items| - 1], i); }
  }

  lemma {:induction false} PutAllHolds(t: Tree, done: seq<Item>, rest: seq<Item>)
    requires WellFormed(t) && Holds(t, done)
    requires Placed(done + rest) && NoParents(done + rest)
    ensures Placed(rest) && PutAll(t, rest).Some?
    ensures Holds(PutAll(t, rest).value, done + rest)
    decreases |rest|
  {
    var all := done + rest;
    assert forall i :: 0 <= i < |rest| ==> rest[i] == all[|done| + i];
    if rest == [] {
      assert all == done;
    } else {
      var x := rest[0];
      ApartFromDone(done, rest);
      HoldsIsFree(t, done, x);
      PutWrites(t, x);
      var u := Put(t, x).value;
      WrittenIsWellFormed(t, x, u);
      HoldsOneMore(t, done, x, u);
      assert all == (done + [x]) + rest[1..];
      PutAllHolds(u, done + [x], rest[1..]);
    }
  }

  lemma ApartFromDone(done: seq<Item>, rest: seq<Item>)
    requires rest != [] && NoParents(done + rest)
    ensures forall i :: 0 <= i < |done| ==> Apart(done[i].place, rest[0].place)
  {
    var all := done + rest;
    forall i | 0 <= i < |done| ensures Apart(done[i].place, rest[0].place) {
      assert all[i] == done[i] && all[|done|] == rest[0];
    }
  }

  /** Files are all written exactly when none has to be another's directory. */
  lemma StagesIffNoParents(items: seq<Item>)
    requires Placed(items)
    ensures PutAll(map[], items).Some? <==> NoParents(items)
    ensures PutAll(map[], items).Some? ==> Holds(PutAll(map[], items).value, items)
  {
    if NoParents(items) {
      assert [] + items == items;
      PutAllHolds(map[], [], items);
    } else if PutAll(map[], items).Some? {
      PutAllKeeps(map[], items);
      var i, j :| 0 <= i < |items| && 0 <= j < |items| && items[i].place < items[j].place;
      assert OnPath(items[i].place, items[j].place);
      assert false;
    }
  }

  // ---------------------------------------------------------------- accepted bundles

  function Items(files: Files, paths: seq<string>, fs: char -> char): (items: seq<Item>)
    requires forall p :: p in paths ==> p in files
    ensures |items| == |paths| && Placed(items)
  {
    seq(|paths|, i requires 0 <= i < |paths| => Item(Key(paths[i], fs), files[paths[i]]))
  }

  /** Names that fs takes for one, fold takes for one too. */
  ghost predicate Finer(fs: char -> char, fold: char -> char) {
    forall c, d :: fs(c) == fs(d) ==> fold(c) == fold(d)
  }

  lemma FinerFold(c: string, d: string, fs: char -> char, fold: char -> char)
    requires Finer(fs, fold) && Fold(c, fs) == Fold(d, fs)
    ensures Fold(c, fold) == Fold(d, fold)
  {
    assert |c| == |Fold(c, fs)| == |d|;
    forall j | 0 <= j < |c| ensures fold(c[j]) == fold(d[j]) {
      assert Fold(c, fs)[j] == Fold(d, fs)[j];
    }
  }

  lemma FinerPrefix(p: string, q: string, fs: char -> char, fold: char -> char)
    requires IsFold(fs) && IsFold(fold) && Finer(fs, fold)
    requires Key(p, fs) <= Key(q, fs)
    ensures Key(p, fold) <= Key(q, fold)
  {
    KeyFoldsComponents(p, fs);
    KeyFoldsComponents(q, fs);
    KeyFoldsComponents(p, fold);
    KeyFoldsComponents(q, fold);
    FinerComponents(Split(p), Split(q), fs, fold);
  }

  lemma FinerComponents(a: seq<string>, b: seq<string>, fs: char -> char, fold: char -> char)
    requires Finer(fs, fold) && FoldAll(a, fs) <= FoldAll(b, fs)
    ensures FoldAll(a, fold) <= FoldAll(b, fold)
  {
    forall i | 0 <= i < |a| ensures FoldAll(a, fold)[i] == FoldAll(b, fold)[i] {
      assert FoldAll(a, fs)[i] == FoldAll(b, fs)[i];
      FinerFold(a[i], b[i], fs, fold);
    }
  }

  lemma AcceptedOnFinerFileSystems(names: set<string>, fs: char -> char, fold: char -> char)
    requires IsFold(fs) && IsFold(fold) && Finer(fs, fold)
    requires Accepted(names, fold)
    ensures Accepted(names, fs)
  {
    forall q | q in names ensures Clear(q, names, fs) {
      forall p | p in names && p != q ensures !(Key(p, fs) <= Key(q, fs)) {
        assert Clear(q, names, fold);
        if Key(p, fs) <= Key(q, fs) { FinerPrefix(p, q, fs, fold); }
      }
    }
  }

  ghost predicate IsFile(files: Files, fs: char -> char, k: Place) {
    exists p :: p in files && Key(p, fs) == k
  }

  ghost predicate IsOnPath(files: Files, fs: char -> char, k: Place) {
    exists p :: p in files && OnPath(k, Key(p, fs))
  }

  ghost predicate Spans(t: Tree, files: Files, fs: char -> char) {
    forall k :: k in t <==> IsOnPath(files, fs, k)
  }

  ghost predicate HoldsBytes(t: Tree, files: Files, fs: char -> char) {
    && (forall k :: k in t && t[k].File? ==> IsFile(files, fs, k))
    && (forall p :: p in files ==> Key(p, fs) in t && t[Key(p, fs)] == File(files[p]))
  }

  /** The tree of a bundle: its files, the directories above them, and nothing else. */
  ghost predicate TreeOf(t: Tree, files: Files, fs: char -> char) {
    Spans(t, files, fs) && HoldsBytes(t, files, fs)
  }

  lemma SpansIsUnique(t: Tree, u: Tree, files: Files, fs: char -> char)
    requires Spans(t, files, fs) && Spans(u, files, fs)
    ensures t.Keys == u.Keys
  {
    forall k ensures k in t <==> k in u {
      assert k in t <==> IsOnPath(files, fs, k);
    }
  }

  lemma BytesAreUnique(t: Tree, u: Tree, files: Files, fs: char -> char)
    requires t.Keys == u.Keys && HoldsBytes(t, files, fs) && HoldsBytes(u, files, fs)
    ensures t == u
  {
    forall k | k in t ensures t[k] == u[k] {
      assert k in u.Keys;
      if t[k].File? || u[k].File? {
        assert IsFile(files, fs, k);
        var p :| p in files && Key(p, fs) == k;
      }
    }
  }

  lemma TreeOfIsUnique(t: Tree, u: Tree, files: Files, fs: char -> char)
    requires TreeOf(t, files, fs) && TreeOf(u, files, fs)
    ensures t == u
  {
    assert t.Keys == u.Keys by { SpansIsUnique(t, u, files, fs); }
    BytesAreUnique(t, u, files, fs);
  }

  /** Each listed file's place holds its own bytes. */
  lemma LeavesOwn(files: Files, paths: seq<string>, fs: char -> char, i: int)
    requires Lists(paths, files.Keys) && Disjoint(files.Keys, fs) && 0 <= i < |paths|
    ensures Leaves(Items(files, paths, fs), Key(paths[i], fs)) == File(files[paths[i]])
  {
    var items := Items(files, paths, fs);
    LeavesFile(items, i);
    var j := LeavesSome(items, Key(paths[i], fs));
    assert Clear(paths[i], files.Keys, fs);
    assert paths[j] in files;
  }

  lemma CoversIsOnPath(files: Files, paths: seq<string>, fs: char -> char, k: Place)
    requires Lists(paths, files.Keys)
    ensures Covers(Items(files, paths, fs), k) <==> IsOnPath(files, fs, k)
  {
    var items := Items(files, paths, fs);
    if Covers(items, k) {
      var i := CoversSome(items, k);
      assert paths[i] in files;
    }
    if IsOnPath(files, fs, k) {
      var p :| p in files && OnPath(k, Key(p, fs));
      var i :| 0 <= i < |paths| && paths[i] == p;
      CoversAbove(items, i, k);
    }
  }

  lemma HoldsIsTreeOf(t: Tree, files: Files, paths: seq<string>, fs: char -> char)
    requires Lists(paths, files.Keys) && Disjoint(files.Keys, fs)
    requires Holds(t, Items(files, paths, fs))
    ensures TreeOf(t, files, fs)
  {
    forall k ensures k in t <==> IsOnPath(files, fs, k) { CoversIsOnPath(files, paths, fs, k); }
    HoldsIsBytes(t, files, paths, fs);
  }

  lemma HoldsIsBytes(t: Tree, files: Files, paths: seq<string>, fs: char -> char)
    requires Lists(paths, files.Keys) && Disjoint(files.Keys, fs)
    requires Holds(t, Items(files, paths, fs))
    ensures HoldsBytes(t, files, fs)
  {
    forall k | k in t && t[k].File? ensures IsFile(files, fs, k) {
      var i := LeavesSome(Items(files, paths, fs), k);
      assert paths[i] in files;
    }
    forall p | p in files ensures Key(p, fs) in t && t[Key(p, fs)] == File(files[p]) {
      var i :| 0 <= i < |paths| && paths[i] == p;
      CoversEach(Items(files, paths, fs), i);
      LeavesOwn(files, paths, fs, i);
    }
  }

  lemma ItemsHaveNoParents(files: Files, paths: seq<string>, fs: char -> char)
    requires Lists(paths, files.Keys) && Disjoint(files.Keys, fs)
    ensures NoParents(Items(files, paths, fs))
  {
    var items := Items(files, paths, fs);
    forall i, j | 0 <= i < |items| && 0 <= j < |items| ensures !(items[i].place < items[j].place) {
      assert paths[i] in files && paths[j] in files;
      assert Clear(paths[j], files.Keys, fs);
    }
  }

  /**
   * An accepted bundle is written whole, in whatever order its files are
   * taken, and always leaves the same tree — also on a file system that
   * tells apart more names than the check does.
   */
  lemma AcceptedStagesInAnyOrder(files: Files, paths: seq<string>, other: seq<string>,
                                 fs: char -> char, fold: char -> char)
    requires IsFold(fs) && IsFold(fold) && Finer(fs, fold)
    requires Accepted(files.Keys, fold)
    requires Lists(paths, files.Keys) && Lists(other, files.Keys)
    ensures PutAll(map[], Items(files, paths, fs)).Some?
    ensures TreeOf(PutAll(map[], Items(files, paths, fs)).value, files, fs)
    ensures PutAll(map[], Items(files, other, fs)) == PutAll(map[], Items(files, paths, fs))
  {
    AcceptedOnFinerFileSystems(files.Keys, fs, fold);
    StagesAs(files, paths, fs);
    StagesAs(files, other, fs);
    TreeOfIsUnique(PutAll(map[], Items(files, paths, fs)).value,
                   PutAll(map[], Items(files, other, fs)).value, files, fs);
  }

  lemma StagesAs(files: Files, paths: seq<string>, fs: char -> char)
    requires Lists(paths, files.Keys) && Disjoint(files.Keys, fs)
    ensures var r := PutAll(map[], Items(files, paths, fs)); r.Some? && TreeOf(r.value, files, fs)
  {
    var items := Items(files, paths, fs);
    ItemsHaveNoParents(files, paths, fs);
    StagesIffNoParents(items);
    HoldsIsTreeOf(PutAll(map[], items).value, files, paths, fs);
  }

  /** What the check guards against: a file that must be another's directory is never written with it. */
  lemma ParentClashNeverStages(files: Files, paths: seq<string>, fs: char -> char, p: string, q: string)
    requires forall x :: x in paths ==> x in files
    requires p in paths && q in paths && Key(p, fs) < Key(q, fs)
    ensures PutAll(map[], Items(files, paths, fs)).None?
  {
    var items := Items(files, paths, fs);
    var i :| 0 <= i < |paths| && paths[i] == p;
    var j :| 0 <= j < |paths| && paths[j] == q;
    assert items[i].place < items[j].place;
    StagesIffNoParents(items);
  }

  /** And two names for one place leave the bytes of whichever came last. */
  lemma AliasOrderDecides(files: Files, paths: seq<string>, fs: char -> char, p: string, q: string)
    requires p in files && q in files && (forall x :: x in paths ==> x in files)
    requires Key(p, fs) == Key(q, fs) && files[p] != files[q]
    requires NoParents(Items(files, paths + [p, q], fs))
    ensures PutAll(map[], Items(files, paths + [p, q], fs)).Some?
    ensures PutAll(map[], Items(files, paths + [q, p], fs)) != PutAll(map[], Items(files, paths + [p, q], fs))
  {
    LastListedWins(files, paths + [p], q, fs);
    assert paths + [p] + [q] == paths + [p, q];
    LastListedWins(files, paths + [q], p, fs);
    assert paths + [q] + [p] == paths + [q, p];
  }

  lemma LastListedWins(files: Files, paths: seq<string>, last: string, fs: char -> char)
    requires last in files && (forall x :: x in paths ==> x in files)
    ensures var r := PutAll(map[], Items(files, paths + [last], fs));
            && (r.Some? <==> NoParents(Items(files, paths + [last], fs)))
            && (r.Some? ==> Key(last, fs) in r.value && r.value[Key(last, fs)] == File(files[last]))
  {
    var items := Items(files, paths + [last], fs);
    StagesIffNoParents(items);
    CoversEach(items, |paths|);
    assert items[|paths|] == Item(Key(last, fs), files[last]);
  }

  lemma {:induction false} CoversAbove(items: seq<Item>, i: int, k: Place)
    requires 0 <= i < |items| && OnPath(k, items[i].place)
    ensures Covers(items, k)
    decreases |items|
  {
    if i < |items| - 1 { CoversAbove(items[..|items| - 1], i, k); }
  }

  // ---------------------------------------------------------------- the staging step

  method Materialize(files: Files, paths: seq<string>, fs: char -> char) returns (r: Option<Tree>)
    requires forall p :: p in paths ==> p in files
    ensures r == PutAll(map[], Items(files, paths, fs))
  {
    var t: Tree := map[];
    ghost var items := Items(files, paths, fs);
    for i := 0 to |paths|
      invariant PutAll(map[], items) == PutAll(t, items[i..])
    {
      assert items[i..][0] == items[i] && items[i..][1..] == items[i + 1..];
      var place := Key(paths[i], fs);
      var made := MkdirAll(t, place[..|place| - 1]);
      if made.None? { return None; }
      var written := WriteFile(made.value, place, files[paths[i]]);
      if written.None? { return None; }
      t := written.value;
    }
    r := Some(t);
  }

  /**
   * Staging: the names are checked before anything is written, and what
   * passes is written whole into the fresh directory.
   */
  method Stage(files: Files, fs: char -> char, fold: char -> char) returns (r: Result<Option<Tree>, PathError>)
    requires IsFold(fs) && IsFold(fold) && Finer(fs, fold)
    ensures r.Ok? <==> Accepted(files.Keys, fold)
    ensures r.Ok? ==> r.value.Some? && TreeOf(r.value.value, files, fs)
    ensures r.Err? ==> Justified(r.error, files.Keys, fold)
  {
    var checked := ValidateBundlePaths(files, fold);
    if checked.Err? { return Err(checked.error); }
    AcceptedStagesInAnyOrder(files, checked.value, checked.value, fs, fold);
    var tree := Materialize(files, checked.value, fs);
    r := Ok(tree);
  }
}
