/** Slash-separated paths: splitting, joining, path.Clean and path.Dir. */
module SlashPaths {
  import opened Text

  /** The components between slashes; a path without a slash is one component. */
  function Split(s: string): (cs: seq<string>)
    ensures |cs| >= 1
    ensures forall i :: 0 <= i < |cs| ==> '/' !in cs[i]
  {
    SplitOn(s, '/')
  }

  function Join(cs: seq<string>): string {
    if cs == [] then "" else if |cs| == 1 then cs[0] else cs[0] + "/" + Join(cs[1..])
  }

  predicate SlashFree(cs: seq<string>) {
    forall i :: 0 <= i < |cs| ==> '/' !in cs[i]
  }

  lemma {:induction false} JoinSplit(s: string)
    ensures Join(Split(s)) == s
    decreases |s|
  {
    if s != [] {
      JoinSplit(s[1..]);
      var cs := Split(s[1..]);
      if s[0] == '/' {
        assert ([""] + cs)[1..] == cs;
        assert "" + "/" + s[1..] == s;
      } else {
        JoinConsHead(s[0], cs);
        assert [s[0]] + s[1..] == s;
      }
    }
  }

  lemma JoinConsHead(c: char, cs: seq<string>)
    requires cs != []
    ensures Join([[c] + cs[0]] + cs[1..]) == [c] + Join(cs)
  {
    var ds := [[c] + cs[0]] + cs[1..];
    if |cs| == 1 {
    } else {
      assert ds[1..] == cs[1..];
      assert ([c] + cs[0]) + "/" + Join(cs[1..]) == [c] + (cs[0] + "/" + Join(cs[1..]));
    }
  }

  lemma SplitOfComponent(c: string, rest: string)
    requires '/' !in c
    ensures Split(c) == [c]
    ensures Split(c + "/" + rest) == [c] + Split(rest)
  {
    SplitOnPart(c, rest, '/');
  }

  lemma {:induction false} SplitJoin(cs: seq<string>)
    requires cs != [] && SlashFree(cs)
    ensures Split(Join(cs)) == cs
    decreases |cs|
  {
    if |cs| == 1 {
      SplitOfComponent(cs[0], "");
      assert cs == [cs[0]];
    } else {
      SplitJoin(cs[1..]);
      SplitOfComponent(cs[0], Join(cs[1..]));
      assert cs == [cs[0]] + cs[1..];
    }
  }

  // ---------------------------------------------------------------- path.Clean

  predicate Plain(c: string) {
    c != "" && c != "." && c != ".."
  }

  predicate AllPlain(cs: seq<string>) {
    forall i :: 0 <= i < |cs| ==> Plain(cs[i])
  }

  /** One component handled by path.Clean: skipped, cancelled against its parent, or kept. */
  function Push(stack: seq<string>, c: string, rooted: bool): seq<string> {
    if c == "" || c == "." then stack
    else if c != ".." then stack + [c]
    else if stack != [] && stack[|stack| - 1] != ".." then stack[..|stack| - 1]
    else if rooted then stack
    else stack + [".."]
  }

  function CleanFrom(stack: seq<string>, cs: seq<string>, rooted: bool): seq<string>
    decreases |cs|
  {
    if cs == [] then stack else CleanFrom(Push(stack, cs[0], rooted), cs[1..], rooted)
  }

  predicate IsAbs(s: string) {
    s != "" && s[0] == '/'
  }

  function Clean(s: string): string {
    var kept := CleanFrom([], Split(s), IsAbs(s));
    if IsAbs(s) then "/" + Join(kept) else if kept == [] then "." else Join(kept)
  }

  /** path.Dir: everything up to the last slash, cleaned. */
  function Dir(s: string): string {
    Clean(s[..AfterLastSlash(s)])
  }

  function AfterLastSlash(s: string): (i: nat)
    ensures i <= |s|
    ensures i > 0 ==> s[i - 1] == '/'
    ensures '/' !in s[i..]
  {
    if s == [] then 0
    else if s[|s| - 1] == '/' then |s|
    else
      var i := AfterLastSlash(s[..|s| - 1]);
      assert s[i..] == s[..|s| - 1][i..] + [s[|s| - 1]];
      i
  }

  /** What Clean keeps: plain components, after a run of "..". */
  predicate Kept(stack: seq<string>) {
    && SlashFree(stack)
    && (forall i :: 0 <= i < |stack| ==> stack[i] != "" && stack[i] != ".")
    && (forall i, j :: 0 <= i < j < |stack| && stack[j] == ".." ==> stack[i] == "..")
  }

  lemma {:induction false} CleanFromKeeps(stack: seq<string>, cs: seq<string>, rooted: bool)
    requires Kept(stack) && SlashFree(cs)
    ensures Kept(CleanFrom(stack, cs, rooted))
    decreases |cs|
  {
    if cs != [] { CleanFromKeeps(Push(stack, cs[0], rooted), cs[1..], rooted); }
  }

  lemma {:induction false} CleanFromPlain(stack: seq<string>, cs: seq<string>, rooted: bool)
    requires AllPlain(cs)
    ensures CleanFrom(stack, cs, rooted) == stack + cs
    decreases |cs|
  {
    if cs != [] {
      CleanFromPlain(stack + [cs[0]], cs[1..], rooted);
      assert stack + [cs[0]] + cs[1..] == stack + cs;
    } else {
      assert stack + cs == stack;
    }
  }

  /** A relative path is its own cleaned form, and no step up, exactly when it is plain. */
  lemma CleanRelativeIffPlain(s: string)
    requires !IsAbs(s) && s != ""
    ensures Clean(s) == s && s != "." && s != ".." && !("../" <= s) <==> AllPlain(Split(s))
  {
    var cs := Split(s);
    var kept := CleanFrom([], cs, false);
    JoinSplit(s);
    if AllPlain(cs) {
      CleanFromPlain([], cs, false);
      assert [] + cs == cs;
      PlainIsNotUp(s);
    } else if Clean(s) == s && s != "." {
      CleanFromKeeps([], cs, false);
      SplitJoin(kept);
      assert kept == cs;
      assert cs[0] == "..";
      UpIsNotPlain(s);
    }
  }

  lemma PlainIsNotUp(s: string)
    requires AllPlain(Split(s))
    ensures s != "." && s != ".." && !("../" <= s)
  {
    SplitOfComponent(".", "");
    SplitOfComponent("..", "");
    assert Plain(Split(s)[0]);
    if "../" <= s {
      assert s == ".." + "/" + s[3..];
      SplitOfComponent("..", s[3..]);
    }
  }

  lemma UpIsNotPlain(s: string)
    requires Split(s)[0] == ".."
    ensures s == ".." || "../" <= s
  {
    JoinSplit(s);
    var cs := Split(s);
    if |cs| > 1 { assert s == ".." + "/" + Join(cs[1..]); }
  }

  // ---------------------------------------------------------------- joining and parents

  lemma {:induction false} SplitConcat(a: string, b: string)
    ensures Split(a + "/" + b) == Split(a) + Split(b)
    decreases |a|
  {
    var s := a + "/" + b;
    if a == [] {
      assert s[1..] == b;
    } else {
      SplitConcat(a[1..], b);
      assert s[1..] == a[1..] + "/" + b && s[0] == a[0];
      var rest := Split(a[1..]);
      HeadOfConcat(rest, Split(b));
    }
  }

  lemma HeadOfConcat(x: seq<string>, y: seq<string>)
    requires x != []
    ensures (x + y)[0] == x[0] && (x + y)[1..] == x[1..] + y
  {
  }

  lemma {:induction false} CleanFromConcat(stack: seq<string>, a: seq<string>, b: seq<string>, rooted: bool)
    ensures CleanFrom(stack, a + b, rooted) == CleanFrom(CleanFrom(stack, a, rooted), b, rooted)
    decreases |a|
  {
    if a == [] {
      assert a + b == b;
    } else {
      CleanFromConcat(Push(stack, a[0], rooted), a[1..], b, rooted);
      assert (a + b)[1..] == a[1..] + b;
    }
  }

  lemma {:induction false} JoinSnoc(cs: seq<string>, c: string)
    requires cs != []
    ensures Join(cs + [c]) == Join(cs) + "/" + c
    decreases |cs|
  {
    if |cs| > 1 {
      JoinSnoc(cs[1..], c);
      assert (cs + [c])[1..] == cs[1..] + [c];
    }
  }

  lemma {:induction false} LastSlashBefore(a: string, c: string)
    requires '/' !in c
    ensures AfterLastSlash(c) == 0
    ensures AfterLastSlash(a + "/" + c) == |a| + 1
    decreases |c|
  {
    var s := a + "/" + c;
    if c != [] {
      LastSlashBefore(a, c[..|c| - 1]);
      assert s[..|s| - 1] == a + "/" + c[..|c| - 1];
    }
  }

  /** The parent of a plain path drops its last component. */
  lemma DirOfSnoc(front: seq<string>, c: string)
    requires front != [] && AllPlain(front) && SlashFree(front) && '/' !in c
    ensures Dir(Join(front + [c])) == Join(front)
  {
    calc {
      Dir(Join(front + [c]));
      { JoinSnoc(front, c); }
      Dir(Join(front) + "/" + c);
      { DirOfConcat(Join(front), c); }
      Clean(Join(front) + "/");
      { CleanTrailingSlash(front); }
      Join(front);
    }
  }

  /** "." stands above the first component. */
  lemma DirOfComponent(c: string)
    requires '/' !in c
    ensures Dir(c) == "."
  {
    LastSlashBefore("", c);
  }

  lemma DirOfConcat(a: string, c: string)
    requires '/' !in c
    ensures Dir(a + "/" + c) == Clean(a + "/")
  {
    LastSlashBefore(a, c);
    assert (a + "/" + c)[..|a| + 1] == a + "/";
  }

  lemma CleanTrailingSlash(cs: seq<string>)
    requires cs != [] && AllPlain(cs) && SlashFree(cs)
    ensures Clean(Join(cs) + "/") == Join(cs)
  {
    SplitConcat(Join(cs), "");
    assert Join(cs) + "/" + "" == Join(cs) + "/";
    SplitJoin(cs);
    CleanFromConcat([], cs, [""], false);
    CleanFromPlain([], cs, false);
    assert [] + cs == cs;
    JoinStartsWith(cs);
  }

  lemma JoinStartsWith(cs: seq<string>)
    requires cs != [] && cs[0] != ""
    ensures Join(cs) != "" && Join(cs)[0] == cs[0][0]
  {
  }
}
