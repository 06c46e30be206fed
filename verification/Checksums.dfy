/** checksums.sha256: the strict parser and the renderer it reads back. */
module Checksums {
  import opened Common
  import opened Text

  // ---------------------------------------------------------------- lines

  function Lines(s: string): (r: seq<string>)
    ensures |r| >= 1
    ensures forall i :: 0 <= i < |r| ==> '\n' !in r[i]
  {
    SplitOn(s, '\n')
  }

  lemma LinesOfLine(line: string, rest: string)
    requires '\n' !in line
    ensures Lines(line + "\n" + rest) == [line] + Lines(rest)
  {
    SplitOnPart(line, rest, '\n');
  }

  // ---------------------------------------------------------------- one line

  /** Index of the first two-space separator, or |s| when there is none. */
  function Separator(s: string): (i: nat)
    ensures i <= |s|
    ensures i < |s| ==> i + 2 <= |s| && s[i] == ' ' && s[i + 1] == ' '
    ensures forall k :: 0 <= k < i && k + 1 < |s| ==> !(s[k] == ' ' && s[k + 1] == ' ')
  {
    if |s| < 2 then |s|
    else if s[0] == ' ' && s[1] == ' ' then 0
    else 1 + Separator(s[1..])
  }

  /** "<64 hex>  <path>" with a non-empty path. */
  function ParseLine(line: string): Option<(string, string)> {
    var i := Separator(line);
    if i == |line| || !ValidSha256Hex(line[..i]) || line[i + 2..] == "" then None
    else Some((line[i + 2..], Lower(line[..i])))
  }

  // ---------------------------------------------------------------- the file

  /** The listing of the given lines: blank lines skipped, duplicates and bad lines refused. */
  function Listing(lines: seq<string>): Option<map<string, string>> {
    if lines == [] then Some(map[])
    else
      var init := Listing(lines[..|lines| - 1]);
      var line := lines[|lines| - 1];
      if init.None? || line == "" then init
      else
        var p := ParseLine(line);
        if p.None? || p.value.0 in init.value then None
        else Some(init.value[p.value.0 := p.value.1])
  }

  function Parse(data: string): Option<map<string, string>> {
    var l := Listing(Lines(data));
    if l.Some? && l.value == map[] then None else l
  }

  /** parseChecksums */
  method ParseChecksums(data: string) returns (r: Option<map<string, string>>)
    ensures r == Parse(data)
  {
    var lines := Lines(data);
    var out: map<string, string> := map[];
    var i := 0;
    while i < |lines|
      invariant 0 <= i <= |lines|
      invariant Listing(lines[..i]) == Some(out)
    {
      assert lines[..i + 1][..i] == lines[..i];
      var line := lines[i];
      if line != "" {
        var p := ParseLine(line);
        if p.None? || p.value.0 in out {
          ListingPrefixFails(lines, i + 1);
          return None;
        }
        out := out[p.value.0 := p.value.1];
      }
      i := i + 1;
    }
    assert lines[..i] == lines;
    if out == map[] { return None; }
    return Some(out);
  }

  lemma {:induction false} ListingPrefixFails(lines: seq<string>, i: nat)
    requires i <= |lines| && Listing(lines[..i]).None?
    ensures Listing(lines).None?
    decreases |lines|
  {
    if i < |lines| {
      var init := lines[..|lines| - 1];
      assert init[..i] == lines[..i];
      ListingPrefixFails(init, i);
    } else {
      assert lines[..i] == lines;
    }
  }

  // ---------------------------------------------------------------- round trip

  /** bundlesig.Canonicalize over the given path order. */
  function Render(paths: seq<string>, sums: map<string, string>): string
    requires forall i :: 0 <= i < |paths| ==> paths[i] in sums
  {
    if paths == [] then ""
    else sums[paths[0]] + "  " + paths[0] + "\n" + Render(paths[1..], sums)
  }

  predicate LowerHexSums(sums: map<string, string>) {
    forall p :: p in sums ==> ValidSha256Hex(sums[p]) && Lower(sums[p]) == sums[p]
  }

  predicate Distinct(paths: seq<string>) {
    forall i, j :: 0 <= i < j < |paths| ==> paths[i] != paths[j]
  }

  lemma RenderedLineParses(sum: string, path: string)
    requires ValidSha256Hex(sum) && Lower(sum) == sum && path != ""
    ensures ParseLine(sum + "  " + path) == Some((path, sum))
  {
    var line := sum + "  " + path;
    var i := Separator(line);
    assert forall k :: 0 <= k < 64 ==> line[k] == sum[k] && IsHexDigit(line[k]);
    assert line[64] == ' ' && line[65] == ' ';
    assert i == 64;
    assert line[..64] == sum && line[66..] == path;
  }

  /** The lines Canonicalize writes, one per path. */
  function RenderedLines(paths: seq<string>, sums: map<string, string>): (r: seq<string>)
    requires forall i :: 0 <= i < |paths| ==> paths[i] in sums
    ensures |r| == |paths|
  {
    seq(|paths|, i requires 0 <= i < |paths| => sums[paths[i]] + "  " + paths[i])
  }

  lemma {:induction false} LinesOfRender(paths: seq<string>, sums: map<string, string>)
    requires forall i :: 0 <= i < |paths| ==> paths[i] in sums && '\n' !in paths[i]
    requires LowerHexSums(sums)
    ensures Lines(Render(paths, sums)) == RenderedLines(paths, sums) + [""]
    decreases |paths|
  {
    if paths != [] {
      var line := sums[paths[0]] + "  " + paths[0];
      assert '\n' !in line by {
        assert forall k :: 0 <= k < |sums[paths[0]]| ==> IsHexDigit(sums[paths[0]][k]);
      }
      assert Render(paths, sums) == line + "\n" + Render(paths[1..], sums);
      LinesOfLine(line, Render(paths[1..], sums));
      LinesOfRender(paths[1..], sums);
      assert RenderedLines(paths, sums) == [line] + RenderedLines(paths[1..], sums);
    }
  }

  function Restrict(paths: seq<string>, sums: map<string, string>): map<string, string> {
    map p | p in paths && p in sums :: sums[p]
  }

  lemma {:induction false} ListingOfRendered(paths: seq<string>, sums: map<string, string>)
    requires forall i :: 0 <= i < |paths| ==> paths[i] in sums && paths[i] != ""
    requires LowerHexSums(sums) && Distinct(paths)
    ensures Listing(RenderedLines(paths, sums)) == Some(Restrict(paths, sums))
    decreases |paths|
  {
    if paths != [] {
      var init, last := paths[..|paths| - 1], paths[|paths| - 1];
      ListingOfRendered(init, sums);
      RenderedLineParses(sums[last], last);
      assert RenderedLines(paths, sums)[..|paths| - 1] == RenderedLines(init, sums);
      assert Restrict(paths, sums) == Restrict(init, sums)[last := sums[last]] by {
        assert forall p :: p in paths <==> p in init || p == last;
      }
    } else {
      assert Restrict(paths, sums) == map[];
    }
  }

  lemma {:induction false} ListedPathsAreOneLine(lines: seq<string>)
    requires forall i :: 0 <= i < |lines| ==> '\n' !in lines[i]
    requires Listing(lines).Some?
    ensures forall p :: p in Listing(lines).value ==> p != "" && '\n' !in p
    decreases |lines|
  {
    if lines != [] { ListedPathsAreOneLine(lines[..|lines| - 1]); }
  }

  /**
   * Parsing what Canonicalize wrote gives back exactly the digests, in any path order, if and
   * only if there is a path and every path is non-empty and free of newlines.
   */
  lemma ParseReadsRenderBack(paths: seq<string>, sums: map<string, string>)
    requires forall i :: 0 <= i < |paths| ==> paths[i] in sums
    requires LowerHexSums(sums) && Distinct(paths)
    ensures Parse(Render(paths, sums)) == Some(Restrict(paths, sums)) <==>
            paths != [] && forall i :: 0 <= i < |paths| ==> paths[i] != "" && '\n' !in paths[i]
  {
    if paths == [] {
      assert Restrict(paths, sums) == map[];
    } else if forall i :: 0 <= i < |paths| ==> paths[i] != "" && '\n' !in paths[i] {
      ReadableIsReadBack(paths, sums);
    } else {
      var i :| 0 <= i < |paths| && !(paths[i] != "" && '\n' !in paths[i]);
      UnreadableIsNot(paths, sums, i);
    }
  }

  lemma ReadableIsReadBack(paths: seq<string>, sums: map<string, string>)
    requires paths != [] && forall i :: 0 <= i < |paths| ==> paths[i] in sums && paths[i] != "" && '\n' !in paths[i]
    requires LowerHexSums(sums) && Distinct(paths)
    ensures Parse(Render(paths, sums)) == Some(Restrict(paths, sums))
  {
    LinesOfRender(paths, sums);
    ListingOfRendered(paths, sums);
    var lines := RenderedLines(paths, sums);
    assert (lines + [""])[..|lines|] == lines;
    assert paths[0] in Restrict(paths, sums);
  }

  lemma UnreadableIsNot(paths: seq<string>, sums: map<string, string>, i: int)
    requires 0 <= i < |paths| && paths[i] in sums && (paths[i] == "" || '\n' in paths[i])
    requires forall j :: 0 <= j < |paths| ==> paths[j] in sums
    ensures Parse(Render(paths, sums)) != Some(Restrict(paths, sums))
  {
    assert paths[i] in Restrict(paths, sums);
    var data := Render(paths, sums);
    if Parse(data).Some? { ListedPathsAreOneLine(Lines(data)); }
  }
}
