/**
 * Bundle names before staging: which sets of names are accepted, and what
 * writing the accepted files, in any order, leaves on disk.
 */
module BundlePaths {
  import opened Common
  import opened Ordering
  import opened SlashPaths
  import opened Sorting

  type Bytes = seq<bv8>
  type Files = map<string, Bytes>

  datatype PathError =
    | Unsafe(rel: string)
    | SameDestination(prior: string, rel: string)
    | ParentOfOther(parent: string, child: string)

  // ---------------------------------------------------------------- one name

  predicate DriveQualified(rel: string) {
    && |rel| >= 2
    && ('A' <= rel[0] <= 'Z' || 'a' <= rel[0] <= 'z')
    && rel[1] == ':'
  }

  /** The checks made on one name, in the program's order. */
  predicate PassesCanonicalCheck(rel: string) {
    && !(rel == "" || '\0' in rel || '\\' in rel)
    && !DriveQualified(rel)
    && var clean := Clean(rel);
       !(IsAbs(rel) || clean == "." || clean == ".." || "../" <= clean || clean != rel)
  }

  /** What an accepted name looks like: non-empty components, none of them a step. */
  predicate Safe(rel: string) {
    && '\0' !in rel && '\\' !in rel
    && !DriveQualified(rel)
    && AllPlain(Split(rel))
  }

  lemma CanonicalCheckIffSafe(rel: string)
    ensures PassesCanonicalCheck(rel) <==> Safe(rel)
  {
    if rel == "" {
      assert !Plain(Split(rel)[0]);
    } else if IsAbs(rel) {
      assert !Plain(Split(rel)[0]);
    } else {
      CleanRelativeIffPlain(rel);
    }
  }

  /** filepath.Join of the staging directory and a name. */
  function Destination(root: string, rel: string): string {
    Clean(root + "/" + rel)
  }

  function KeptComponents(s: string): seq<string> {
    CleanFrom([], Split(s), IsAbs(s))
  }

  /** A safe name lands strictly below the staging directory, whatever that directory's spelling. */
  lemma DestinationStaysInside(root: string, rel: string)
    requires root != "" && Safe(rel)
    ensures KeptComponents(root + "/" + rel) == KeptComponents(root) + Split(rel)
    ensures |Split(rel)| >= 1
    ensures Destination(root, rel) ==
            (if IsAbs(root) then "/" else "") + Join(KeptComponents(root) + Split(rel))
  {
    var dst := root + "/" + rel;
    assert IsAbs(dst) == IsAbs(root);
    SplitConcat(root, rel);
    CleanFromConcat([], Split(root), Split(rel), IsAbs(root));
    CleanFromPlain(KeptComponents(root), Split(rel), IsAbs(root));
  }

  // ---------------------------------------------------------------- case folding

  /** A file system's folding of characters; strings.ToLower is one, the identity another. */
  ghost predicate IsFold(fold: char -> char) {
    && (forall c :: fold(c) == '/' <==> c == '/')
    && (forall c :: fold(c) == '.' <==> c == '.')
  }

  function Fold(s: string, fold: char -> char): string {
    seq(|s|, i requires 0 <= i < |s| => fold(s[i]))
  }

  function FoldAll(cs: seq<string>, fold: char -> char): seq<string> {
    seq(|cs|, i requires 0 <= i < |cs| => Fold(cs[i], fold))
  }

  /** The place a name takes in the tree of a file system that folds names. */
  function Key(rel: string, fold: char -> char): seq<string> {
    Split(Fold(rel, fold))
  }

  lemma {:induction false} KeyFoldsComponents(rel: string, fold: char -> char)
    requires IsFold(fold)
    ensures Key(rel, fold) == FoldAll(Split(rel), fold)
    decreases |rel|
  {
    if rel == [] {
      assert FoldAll([""], fold) == [""];
    } else {
      KeyFoldsComponents(rel[1..], fold);
      assert Fold(rel, fold)[1..] == Fold(rel[1..], fold);
      var cs := Split(rel[1..]);
      if rel[0] == '/' {
        assert FoldAll([""] + cs, fold) == [""] + FoldAll(cs, fold);
      } else {
        assert Fold([rel[0]] + cs[0], fold) == [fold(rel[0])] + Fold(cs[0], fold);
        assert FoldAll([[rel[0]] + cs[0]] + cs[1..], fold)
            == [Fold([rel[0]] + cs[0], fold)] + FoldAll(cs, fold)[1..];
      }
    }
  }

  lemma KeyIsPlain(rel: string, fold: char -> char)
    requires IsFold(fold) && AllPlain(Split(rel))
    ensures AllPlain(Key(rel, fold))
  {
    KeyFoldsComponents(rel, fold);
    forall i | 0 <= i < |Split(rel)| ensures Plain(Key(rel, fold)[i]) {
      var c := Split(rel)[i];
      assert Plain(c) && |Fold(c, fold)| == |c|;
      assert forall j :: 0 <= j < |c| ==> (Fold(c, fold)[j] == '.' <==> c[j] == '.');
    }
  }

  // ---------------------------------------------------------------- a set of names

  /** No name takes the place of another or of a directory above another. */
  ghost predicate Disjoint(names: set<string>, fold: char -> char) {
    forall q :: q in names ==> Clear(q, names, fold)
  }

  ghost predicate Clear(q: string, names: set<string>, fold: char -> char) {
    forall p :: p in names && p != q ==> !(Key(p, fold) <= Key(q, fold))
  }

  ghost predicate Accepted(names: set<string>, fold: char -> char) {
    && (forall p :: p in names ==> Safe(p))
    && Disjoint(names, fold)
  }

  /** What an error says is true of the names. */
  ghost predicate Justified(e: PathError, names: set<string>, fold: char -> char) {
    match e
    case Unsafe(rel) => rel in names && !Safe(rel)
    case SameDestination(prior, rel) =>
      prior in names && rel in names && prior != rel && Key(prior, fold) == Key(rel, fold)
    case ParentOfOther(parent, child) =>
      parent in names && child in names && Key(parent, fold) < Key(child, fold)
  }

  /** The folded names met so far, each with the name it came from. */
  ghost predicate Indexes(seen: map<string, string>, names: set<string>, fold: char -> char) {
    && (forall k :: k in seen ==> seen[k] in names && Fold(seen[k], fold) == k)
    && (forall p :: p in names ==> Fold(p, fold) in seen && seen[Fold(p, fold)] == p)
  }

  /** The names, each once, in some order. */
  ghost predicate Lists(paths: seq<string>, names: set<string>) {
    && (forall p :: p in paths <==> p in names)
    && NoRepeats(paths)
  }

  lemma TextLessIsOrder()
    ensures WeakOrder(TextLess)
  {
    forall x, y, z
      ensures (TextLess(x, y) ==> !TextLess(y, x))
           && (TextLess(x, y) && TextLess(y, z) ==> TextLess(x, z))
           && (!TextLess(x, y) && !TextLess(y, z) ==> !TextLess(x, z))
    {
      CompareTextAntisymmetric(x, y);
      CompareTextAntisymmetric(y, z);
      CompareTextAntisymmetric(x, z);
      if CompareText(x, y) <= 0 && CompareText(y, z) <= 0 { CompareTextTransitive(x, y, z); }
      if CompareText(z, y) <= 0 && CompareText(y, x) <= 0 { CompareTextTransitive(z, y, x); }
    }
  }

  lemma SortingKeepsList(paths: seq<string>, names: set<string>)
    requires Lists(paths, names)
    ensures Lists(SortBy(paths, TextLess), names) && Sorted(SortBy(paths, TextLess), TextLess)
  {
    TextLessIsOrder();
    SortSorts(paths, TextLess);
    SortPermutes(paths, TextLess);
    NoRepeatsPermutes(paths, SortBy(paths, TextLess));
    forall p ensures p in paths <==> p in SortBy(paths, TextLess) { SameElements(paths, SortBy(paths, TextLess), p); }
  }

  /** Folded strings agree exactly when their keys do. */
  lemma KeyDetermines(p: string, q: string, fold: char -> char)
    ensures Key(p, fold) == Key(q, fold) <==> Fold(p, fold) == Fold(q, fold)
  {
    JoinSplit(Fold(p, fold));
    JoinSplit(Fold(q, fold));
  }

  method IndexNames(names: set<string>, fold: char -> char)
    returns (r: Result<map<string, string>, PathError>, paths: seq<string>)
    ensures r.Ok? ==> (forall p :: p in names ==> Safe(p)) && Indexes(r.value, names, fold)
    ensures r.Ok? ==> Lists(paths, names)
    ensures r.Err? ==> Justified(r.error, names, fold)
  {
    var rest, seen: map<string, string> := names, map[];
    paths := [];
    while rest != {}
      invariant rest <= names
      invariant Lists(paths, names - rest)
      invariant forall p :: p in names - rest ==> Safe(p)
      invariant Indexes(seen, names - rest, fold)
    {
      var rel :| rel in rest;
      CanonicalCheckIffSafe(rel);
      if !PassesCanonicalCheck(rel) {
        return Err(Unsafe(rel)), paths;
      }
      var normalized := Fold(rel, fold);
      if normalized in seen {
        KeyDetermines(seen[normalized], rel, fold);
        return Err(SameDestination(seen[normalized], rel)), paths;
      }
      seen := seen[normalized := rel];
      paths := paths + [rel];
      assert names - (rest - {rel}) == (names - rest) + {rel};
      rest := rest - {rel};
    }
    assert names - {} == names;
    r := Ok(seen);
  }

  /** The directory made of the first k components; "." when there are none. */
  ghost function Up(s: string, k: int): string
    requires 0 <= k <= |Split(s)|
  {
    if k == 0 then "." else Join(Split(s)[..k])
  }

  lemma UpIsDir(s: string, k: int)
    requires 0 < k <= |Split(s)| && AllPlain(Split(s))
    ensures Dir(Up(s, k)) == Up(s, k - 1)
    ensures Up(s, k) != "."
  {
    var front, c := Split(s)[..k - 1], Split(s)[k - 1];
    assert Split(s)[..k] == front + [c];
    if k == 1 {
      DirOfComponent(c);
    } else {
      DirOfSnoc(front, c);
    }
    UpIsNotDot(s, k);
  }

  lemma UpIsNotDot(s: string, k: int)
    requires 0 < k <= |Split(s)| && AllPlain(Split(s))
    ensures Up(s, k) != "."
  {
    SplitJoin(Split(s)[..k]);
    SplitOfComponent(".", "");
    assert Plain(Split(s)[0]);
  }

  lemma UpFromAll(s: string)
    ensures Up(s, |Split(s)|) == s
  {
    JoinSplit(s);
    assert Split(s)[..|Split(s)|] == Split(s);
  }

  ghost predicate IsAncestorIn(normalized: string, k: int, seen: map<string, string>) {
    0 < k < |Split(normalized)| && Up(normalized, k) in seen
  }

  /** The walk from a name up to the root, looking for a file on the way. */
  method FindAncestor(normalized: string, seen: map<string, string>) returns (r: Option<string>)
    requires AllPlain(Split(normalized))
    ensures r.Some? ==> exists k :: IsAncestorIn(normalized, k, seen) && r.value == Up(normalized, k)
    ensures r.None? ==> forall k :: !IsAncestorIn(normalized, k, seen)
  {
    var parent := Dir(normalized);
    ghost var n := |Split(normalized)|;
    ghost var k := n - 1;
    UpFromAll(normalized);
    UpIsDir(normalized, n);
    while parent != "."
      invariant 0 <= k < n
      invariant parent == Up(normalized, k)
      invariant forall j :: k < j < n ==> !IsAncestorIn(normalized, j, seen)
      decreases k
    {
      if parent in seen {
        assert IsAncestorIn(normalized, k, seen);
        return Some(parent);
      }
      UpIsDir(normalized, k);
      parent := Dir(parent);
      k := k - 1;
    }
    assert k == 0 by { if k > 0 { UpIsDir(normalized, k); } }
    r := None;
  }

  /** An indexed folded name is an ancestor exactly when its key is a proper prefix. */
  lemma AncestorIsPrefix(p: string, q: string, k: int, fold: char -> char)
    requires 0 < k < |Key(q, fold)|
    ensures Fold(p, fold) == Up(Fold(q, fold), k) <==> Key(p, fold) == Key(q, fold)[..k]
  {
    JoinSplit(Fold(p, fold));
    SplitJoin(Key(q, fold)[..k]);
  }

  lemma AncestorFound(q: string, k: int, seen: map<string, string>, names: set<string>, fold: char -> char)
    requires Indexes(seen, names, fold) && IsAncestorIn(Fold(q, fold), k, seen)
    ensures var a := Up(Fold(q, fold), k); seen[a] in names && Key(seen[a], fold) < Key(q, fold)
  {
    var a := Up(Fold(q, fold), k);
    AncestorIsPrefix(seen[a], q, k, fold);
  }

  lemma PrefixIsAncestor(p: string, q: string, seen: map<string, string>, names: set<string>, fold: char -> char)
    requires Indexes(seen, names, fold) && p in names && q in names && p != q
    requires Key(p, fold) <= Key(q, fold)
    ensures IsAncestorIn(Fold(q, fold), |Key(p, fold)|, seen)
  {
    KeyDetermines(p, q, fold);
    var k := |Key(p, fold)|;
    assert Key(q, fold)[..k] == Key(p, fold);
    AncestorIsPrefix(p, q, k, fold);
  }

  lemma NoAncestorIsClear(q: string, seen: map<string, string>, names: set<string>, fold: char -> char)
    requires Indexes(seen, names, fold) && q in names
    requires forall k :: !IsAncestorIn(Fold(q, fold), k, seen)
    ensures Clear(q, names, fold)
  {
    forall p | p in names && p != q ensures !(Key(p, fold) <= Key(q, fold)) {
      if Key(p, fold) <= Key(q, fold) { PrefixIsAncestor(p, q, seen, names, fold); }
    }
  }

  /** No file is met on the way up from another. */
  method CheckParents(seen: map<string, string>, ghost names: set<string>, fold: char -> char)
    returns (r: Option<PathError>)
    requires IsFold(fold) && Indexes(seen, names, fold)
    requires forall p :: p in names ==> Safe(p)
    ensures r.None? ==> Disjoint(names, fold)
    ensures r.Some? ==> r.value.ParentOfOther? && Justified(r.value, names, fold)
  {
    var rest := seen.Keys;
    while rest != {}
      invariant rest <= seen.Keys
      invariant forall q :: q in names && Fold(q, fold) !in rest ==> Clear(q, names, fold)
    {
      var normalized :| normalized in rest;
      var rel := seen[normalized];
      KeyIsPlain(rel, fold);
      var clash := FindAncestor(normalized, seen);
      if clash.Some? {
        ghost var k :| IsAncestorIn(normalized, k, seen) && clash.value == Up(normalized, k);
        AncestorFound(rel, k, seen, names, fold);
        return Some(ParentOfOther(seen[clash.value], rel));
      }
      NoAncestorIsClear(rel, seen, names, fold);
      rest := rest - {normalized};
    }
    r := None;
  }

  lemma JustifiedIsNotAccepted(e: PathError, names: set<string>, fold: char -> char)
    requires Justified(e, names, fold)
    ensures !Accepted(names, fold)
  {
    match e
    case Unsafe(_) =>
    case SameDestination(prior, rel) => assert Clear(rel, names, fold) ==> !(Key(prior, fold) <= Key(rel, fold));
    case ParentOfOther(parent, child) => assert Clear(child, names, fold) ==> !(Key(parent, fold) <= Key(child, fold));
  }

  /**
   * The preflight over a bundle's names, met in any order: it lets through
   * exactly the accepted sets, listed in order, and an error names files that do clash.
   */
  method ValidateBundlePaths(files: Files, fold: char -> char) returns (r: Result<seq<string>, PathError>)
    requires IsFold(fold)
    ensures r.Ok? <==> Accepted(files.Keys, fold)
    ensures r.Ok? ==> Lists(r.value, files.Keys) && Sorted(r.value, TextLess)
    ensures r.Err? ==> Justified(r.error, files.Keys, fold)
  {
    var indexed, paths := IndexNames(files.Keys, fold);
    if indexed.Err? {
      JustifiedIsNotAccepted(indexed.error, files.Keys, fold);
      return Err(indexed.error);
    }
    var clash := CheckParents(indexed.value, files.Keys, fold);
    if clash.Some? {
      JustifiedIsNotAccepted(clash.value, files.Keys, fold);
      return Err(clash.value);
    }
    SortingKeepsList(paths, files.Keys);
    paths := Sort(paths, TextLess);
    r := Ok(paths);
  }
}
