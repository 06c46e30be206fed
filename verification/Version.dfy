/** The release comparator behind every self-update floor and downgrade check. */
module Version {
  import opened Common
  import opened Text
  import opened Ordering

  // ---------------------------------------------------------------- reading a version

  /** Index of the first `c`, or |s|. */
  function IndexOf(s: string, c: char): (i: nat)
    ensures i <= |s|
    ensures c !in s[..i]
    ensures i < |s| ==> s[i] == c
  {
    if s == [] || s[0] == c then 0
    else
      var i := 1 + IndexOf(s[1..], c);
      assert s[..i] == [s[0]] + s[1..][..i - 1];
      i
  }

  function SplitDots(s: string): (parts: seq<string>)
    ensures |parts| >= 1
    decreases |s|
  {
    var i := IndexOf(s, '.');
    if i == |s| then [s] else [s[..i]] + SplitDots(s[i + 1..])
  }

  const MAX_INT := 0x7fff_ffff_ffff_ffff

  predicate IsDigits(s: string) {
    |s| > 0 && forall i :: 0 <= i < |s| ==> '0' <= s[i] <= '9'
  }

  function Digits(s: string): nat
    requires forall i :: 0 <= i < |s| ==> '0' <= s[i] <= '9'
  {
    if s == [] then 0 else 10 * Digits(s[..|s| - 1]) + (s[|s| - 1] as int - '0' as int)
  }

  /** strconv.Atoi: optional sign, decimal digits, 64-bit range. */
  function Atoi(s: string): Option<int> {
    var negative := |s| > 0 && s[0] == '-';
    var digits := if |s| > 0 && (s[0] == '-' || s[0] == '+') then s[1..] else s;
    if !IsDigits(digits) then None
    else
      var n: int := Digits(digits);
      if negative then (if n <= MAX_INT + 1 then Some(-n) else None)
      else if n <= MAX_INT then Some(n) else None
  }

  /** splitVersion: drop a leading "v" and build metadata, split off the pre-release. */
  function SplitVersion(v: string): (string, string) {
    var v1 := if |v| > 0 && v[0] == 'v' then v[1..] else v;
    var v2 := v1[..IndexOf(v1, '+')];
    var i := IndexOf(v2, '-');
    if i == |v2| then (v2, "") else (v2[..i], v2[i + 1..])
  }

  // ---------------------------------------------------------------- comparing

  /** A release-core field; missing and malformed fields count as zero. */
  function CoreField(fields: seq<string>, i: nat): int {
    if i < |fields| && Atoi(Trim(fields[i])).Some? then Atoi(Trim(fields[i])).value else 0
  }

  function CompareCoreFrom(as_: seq<string>, bs: seq<string>, i: nat, n: nat): int
    requires i <= n
    decreases n - i
  {
    if i == n then 0
    else if CoreField(as_, i) != CoreField(bs, i) then Sign(CoreField(as_, i), CoreField(bs, i))
    else CompareCoreFrom(as_, bs, i + 1, n)
  }

  function Max(a: nat, b: nat): nat {
    if a < b then b else a
  }

  function CompareCore(a: string, b: string): int {
    CompareCoreFrom(SplitDots(a), SplitDots(b), 0, Max(|SplitDots(a)|, |SplitDots(b)|))
  }

  function ComparePreField(a: string, b: string): int {
    if Atoi(a).Some? && Atoi(b).Some? then Sign(Atoi(a).value, Atoi(b).value)
    else if Atoi(a).Some? then -1
    else if Atoi(b).Some? then 1
    else CompareText(a, b)
  }

  function ComparePreFields(as_: seq<string>, bs: seq<string>): int {
    if as_ == [] || bs == [] then Sign(|as_|, |bs|)
    else if ComparePreField(as_[0], bs[0]) != 0 then ComparePreField(as_[0], bs[0])
    else ComparePreFields(as_[1..], bs[1..])
  }

  /** Compare after trimming, on two non-empty texts. */
  function CompareSplit(a: (string, string), b: (string, string)): int {
    if CompareCore(a.0, b.0) != 0 then CompareCore(a.0, b.0)
    else if a.1 == "" && b.1 == "" then 0
    else if a.1 == "" then 1
    else if b.1 == "" then -1
    else ComparePreFields(SplitDots(a.1), SplitDots(b.1))
  }

  function CompareTrimmed(a: string, b: string): int {
    if a == b then 0
    else if a == "" then -1
    else if b == "" then 1
    else CompareSplit(SplitVersion(a), SplitVersion(b))
  }

  function Compare(a: string, b: string): int {
    CompareTrimmed(Trim(a), Trim(b))
  }

  // ---------------------------------------------------------------- the loops

  /** compareReleaseCore: the field loop computes the comparison of the zero-extended cores. */
  method CompareReleaseCore(a: string, b: string) returns (c: int)
    ensures c == CompareCore(a, b)
  {
    var as_, bs := SplitDots(a), SplitDots(b);
    var n := Max(|as_|, |bs|);
    var i := 0;
    while i < n
      invariant 0 <= i <= n
      invariant CompareCoreFrom(as_, bs, 0, n) == CompareCoreFrom(as_, bs, i, n)
    {
      var ai, bi := CoreField(as_, i), CoreField(bs, i);
      if ai != bi {
        return if ai < bi then -1 else 1;
      }
      i := i + 1;
    }
    c := 0;
  }

  /** comparePrerelease: shared identifiers first, then the longer list wins. */
  method ComparePrerelease(a: string, b: string) returns (c: int)
    ensures c == ComparePreFields(SplitDots(a), SplitDots(b))
  {
    var as_, bs := SplitDots(a), SplitDots(b);
    var i := 0;
    while i < |as_| && i < |bs|
      invariant 0 <= i <= |as_| && i <= |bs|
      invariant ComparePreFields(as_, bs) == ComparePreFields(as_[i..], bs[i..])
    {
      c := ComparePreField(as_[i], bs[i]);
      if c != 0 { return; }
      assert as_[i..][1..] == as_[i + 1..] && bs[i..][1..] == bs[i + 1..];
      i := i + 1;
    }
    c := if |as_| < |bs| then -1 else if |as_| > |bs| then 1 else 0;
  }

  // ---------------------------------------------------------------- a total preorder

  lemma {:induction false} CoreAntisymmetric(as_: seq<string>, bs: seq<string>, i: nat, n: nat)
    requires i <= n
    ensures CompareCoreFrom(as_, bs, i, n) == -CompareCoreFrom(bs, as_, i, n)
    decreases n - i
  {
    if i < n { CoreAntisymmetric(as_, bs, i + 1, n); }
  }

  lemma {:induction false} CoreTransitive(as_: seq<string>, bs: seq<string>, cs: seq<string>, i: nat, n: nat)
    requires i <= n
    requires CompareCoreFrom(as_, bs, i, n) <= 0 && CompareCoreFrom(bs, cs, i, n) <= 0
    ensures CompareCoreFrom(as_, cs, i, n) <= 0
    ensures CompareCoreFrom(as_, cs, i, n) == 0 ==>
              CompareCoreFrom(as_, bs, i, n) == 0 && CompareCoreFrom(bs, cs, i, n) == 0
    decreases n - i
  {
    if i < n && CoreField(as_, i) == CoreField(bs, i) == CoreField(cs, i) {
      CoreTransitive(as_, bs, cs, i + 1, n);
    }
  }

  /** Comparing further than both cores reach adds only equal zero fields. */
  lemma {:induction false} CoreBeyondEnd(as_: seq<string>, bs: seq<string>, i: nat, n: nat, m: nat)
    requires i <= n <= m && |as_| <= n && |bs| <= n
    ensures CompareCoreFrom(as_, bs, i, n) == CompareCoreFrom(as_, bs, i, m)
    decreases m - i
  {
    if i < n {
      CoreBeyondEnd(as_, bs, i + 1, n, m);
    } else if i < m {
      CoreBeyondEnd(as_, bs, i + 1, n + 1, m);
    }
  }

  lemma {:induction false} PreFieldsAntisymmetric(as_: seq<string>, bs: seq<string>)
    ensures ComparePreFields(as_, bs) == -ComparePreFields(bs, as_)
    decreases |as_|
  {
    if as_ != [] && bs != [] {
      CompareTextAntisymmetric(as_[0], bs[0]);
      PreFieldsAntisymmetric(as_[1..], bs[1..]);
    }
  }

  lemma PreFieldTransitive(a: string, b: string, c: string)
    requires ComparePreField(a, b) <= 0 && ComparePreField(b, c) <= 0
    ensures ComparePreField(a, c) <= 0
    ensures ComparePreField(a, c) == 0 ==> ComparePreField(a, b) == 0 && ComparePreField(b, c) == 0
  {
    if Atoi(a).None? && Atoi(b).None? && Atoi(c).None? {
      CompareTextTransitive(a, b, c);
    }
  }

  lemma {:induction false} PreFieldsTransitive(as_: seq<string>, bs: seq<string>, cs: seq<string>)
    requires ComparePreFields(as_, bs) <= 0 && ComparePreFields(bs, cs) <= 0
    ensures ComparePreFields(as_, cs) <= 0
    ensures ComparePreFields(as_, cs) == 0 ==> ComparePreFields(as_, bs) == 0 && ComparePreFields(bs, cs) == 0
    decreases |as_|
  {
    if as_ != [] && bs != [] && cs != [] {
      PreFieldTransitive(as_[0], bs[0], cs[0]);
      if ComparePreField(as_[0], bs[0]) == 0 && ComparePreField(bs[0], cs[0]) == 0 {
        PreFieldTransitive(cs[0], bs[0], as_[0]) by {
          CompareTextAntisymmetric(as_[0], bs[0]);
          CompareTextAntisymmetric(bs[0], cs[0]);
        }
        CompareTextAntisymmetric(as_[0], cs[0]);
        PreFieldsTransitive(as_[1..], bs[1..], cs[1..]);
      }
    }
  }

  lemma SplitAntisymmetric(a: (string, string), b: (string, string))
    ensures CompareSplit(a, b) == -CompareSplit(b, a)
  {
    CoreAntisymmetric(SplitDots(a.0), SplitDots(b.0), 0, Max(|SplitDots(a.0)|, |SplitDots(b.0)|));
    PreFieldsAntisymmetric(SplitDots(a.1), SplitDots(b.1));
  }

  lemma CoreCompareTransitive(a: string, b: string, c: string)
    requires CompareCore(a, b) <= 0 && CompareCore(b, c) <= 0
    ensures CompareCore(a, c) <= 0
    ensures CompareCore(a, c) == 0 ==> CompareCore(a, b) == 0 && CompareCore(b, c) == 0
    ensures CompareCore(a, b) == 0 && CompareCore(b, c) == 0 ==> CompareCore(a, c) == 0
  {
    var as_, bs, cs := SplitDots(a), SplitDots(b), SplitDots(c);
    var n := Max(|as_|, Max(|bs|, |cs|));
    CoreBeyondEnd(as_, bs, 0, Max(|as_|, |bs|), n);
    CoreBeyondEnd(bs, cs, 0, Max(|bs|, |cs|), n);
    CoreBeyondEnd(as_, cs, 0, Max(|as_|, |cs|), n);
    CoreTransitive(as_, bs, cs, 0, n);
    if CompareCore(a, b) == 0 && CompareCore(b, c) == 0 {
      CoreAntisymmetric(as_, bs, 0, n);
      CoreAntisymmetric(bs, cs, 0, n);
      CoreAntisymmetric(as_, cs, 0, n);
      CoreTransitive(cs, bs, as_, 0, n);
    }
  }

  lemma SplitTransitive(a: (string, string), b: (string, string), c: (string, string))
    requires CompareSplit(a, b) <= 0 && CompareSplit(b, c) <= 0
    ensures CompareSplit(a, c) <= 0
    ensures CompareSplit(a, c) == 0 ==> CompareSplit(a, b) == 0 && CompareSplit(b, c) == 0
  {
    CoreCompareTransitive(a.0, b.0, c.0);
    if CompareCore(a.0, c.0) == 0 && a.1 != "" && b.1 != "" && c.1 != "" {
      PreFieldsTransitive(SplitDots(a.1), SplitDots(b.1), SplitDots(c.1));
    }
  }

  /** The comparator orders every pair of texts, symmetrically. */
  lemma CompareIsAntisymmetric(a: string, b: string)
    ensures Compare(a, b) == -Compare(b, a)
  {
    SplitAntisymmetric(SplitVersion(Trim(a)), SplitVersion(Trim(b)));
  }

  /** The comparator is transitive, and strict as soon as one side is strict. */
  lemma CompareIsTransitive(a: string, b: string, c: string)
    requires Compare(a, b) <= 0 && Compare(b, c) <= 0
    ensures Compare(a, c) <= 0
    ensures Compare(a, c) == 0 ==> Compare(a, b) == 0 && Compare(b, c) == 0
  {
    var x, y, z := Trim(a), Trim(b), Trim(c);
    if x != y && y != z && x != "" && y != "" && z != "" {
      SplitTransitive(SplitVersion(x), SplitVersion(y), SplitVersion(z));
      if x == z { SplitAntisymmetric(SplitVersion(x), SplitVersion(y)); }
    }
  }

  /** Versions that compare equal are interchangeable in every comparison. */
  lemma EqualVersionsCompareAlike(a: string, b: string, c: string)
    requires Compare(a, b) == 0
    ensures Compare(a, c) == 0 <==> Compare(b, c) == 0
    ensures Compare(a, c) < 0 <==> Compare(b, c) < 0
  {
    CompareIsAntisymmetric(a, b);
    CompareIsAntisymmetric(a, c);
    CompareIsAntisymmetric(b, c);
    if Compare(a, c) <= 0 { CompareIsTransitive(b, a, c); }
    if Compare(b, c) <= 0 { CompareIsTransitive(a, b, c); }
    if Compare(c, a) <= 0 { CompareIsTransitive(c, a, b); }
    if Compare(c, b) <= 0 { CompareIsTransitive(c, b, a); }
  }

  /** A target written without the tag's leading "v" still denotes the same release. */
  lemma LeadingVIsIgnored(x: string)
    requires x != "" && Trim(x) == x && x[0] != 'v'
    ensures Compare("v" + x, x) == 0
  {
    LeadingVSplitsAlike(x);
    SplitAntisymmetric(SplitVersion(x), SplitVersion(x));
  }

  lemma LeadingVSplitsAlike(x: string)
    requires x != "" && Trim(x) == x && x[0] != 'v'
    ensures Trim("v" + x) == "v" + x && SplitVersion("v" + x) == SplitVersion(x)
  {
    var vx := "v" + x;
    TrimRightIdentity(x);
    assert Trim(vx) == vx by {
      assert !IsSpace(vx[0]) && vx[|vx| - 1] == x[|x| - 1];
    }
    assert vx[1..] == x;
  }

  lemma {:induction false} TrimRightIdentity(s: string)
    requires s != "" && Trim(s) == s
    ensures !IsSpace(s[0]) && !IsSpace(s[|s| - 1])
  {
    TrimsShorten(s);
    TrimsShorten(TrimLeft(s));
    if IsSpace(s[0]) { TrimsShorten(s[1..]); }
    if IsSpace(s[|s| - 1]) { TrimsShorten(s[..|s| - 1]); }
  }

  lemma TrimsShorten(s: string)
    ensures |TrimLeft(s)| <= |s| && |TrimRight(s)| <= |s|
  {
  }
}
