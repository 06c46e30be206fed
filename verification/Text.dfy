/** ASCII text operations the agent's comparisons are built from. */
module Text {
  predicate IsSpace(c: char) {
    c == ' ' || c == '\t' || c == '\n' || c == '\U{0B}' || c == '\U{0C}' || c == '\r'
  }

  /** strings.TrimSpace(s) == "" */
  predicate IsBlank(s: string) {
    forall i :: 0 <= i < |s| ==> IsSpace(s[i])
  }

  function TrimLeft(s: string): string {
    if s != [] && IsSpace(s[0]) then TrimLeft(s[1..]) else s
  }

  function TrimRight(s: string): string {
    if s != [] && IsSpace(s[|s| - 1]) then TrimRight(s[..|s| - 1]) else s
  }

  /** strings.TrimSpace */
  function Trim(s: string): string {
    TrimRight(TrimLeft(s))
  }

  function LowerChar(c: char): char {
    if 'A' <= c <= 'Z' then (c as int + 32) as char else c
  }

  function Lower(s: string): (r: string)
    ensures |r| == |s|
    ensures forall i :: 0 <= i < |s| ==> r[i] == LowerChar(s[i])
  {
    seq(|s|, i requires 0 <= i < |s| => LowerChar(s[i]))
  }

  /** strings.EqualFold on the ASCII texts compared here. */
  predicate EqualFold(a: string, b: string) {
    Lower(a) == Lower(b)
  }

  predicate IsHexDigit(c: char) {
    '0' <= c <= '9' || 'a' <= c <= 'f' || 'A' <= c <= 'F'
  }

  /** validSHA256Hex: 64 hexadecimal characters. */
  predicate ValidSha256Hex(s: string) {
    |s| == 64 && forall i :: 0 <= i < |s| ==> IsHexDigit(s[i])
  }

  /** A digest as hex.EncodeToString writes it. */
  type Sha256Hex = s: string | ValidSha256Hex(s)
    witness seq(64, _ => '0')

  /** strings.Split on a one-character separator. */
  function SplitOn(s: string, mark: char): (parts: seq<string>)
    ensures |parts| >= 1
    ensures forall i :: 0 <= i < |parts| ==> mark !in parts[i]
    decreases |s|
  {
    if s == [] then [""]
    else if s[0] == mark then [""] + SplitOn(s[1..], mark)
    else
      var parts := SplitOn(s[1..], mark);
      [[s[0]] + parts[0]] + parts[1..]
  }

  lemma {:induction false} SplitOnPart(part: string, rest: string, mark: char)
    requires mark !in part
    ensures SplitOn(part, mark) == [part]
    ensures SplitOn(part + [mark] + rest, mark) == [part] + SplitOn(rest, mark)
    decreases |part|
  {
    var s := part + [mark] + rest;
    if part == [] {
      assert s[1..] == rest;
    } else {
      SplitOnPart(part[1..], rest, mark);
      assert s[1..] == part[1..] + [mark] + rest;
      assert [part[0]] + part[1..] == part;
    }
  }

  /** Two texts that agree up to their first NUL agree on both sides of it. */
  lemma {:induction false} SplitAtNul(a: string, b: string, x: string, y: string)
    requires '\0' !in a && '\0' !in b && a + "\0" + x == b + "\0" + y
    ensures a == b && x == y
    decreases |a|
  {
    var s := a + "\0" + x;
    var t := b + "\0" + y;
    if |a| == 0 {
      assert s[0] == '\0' && t[0] == '\0';
      assert x == s[1..] && y == t[1..];
    } else {
      assert s[0] == a[0];
      assert t[0] == b[0];
      assert s[1..] == a[1..] + "\0" + x && t[1..] == b[1..] + "\0" + y;
      SplitAtNul(a[1..], b[1..], x, y);
      assert a == [a[0]] + a[1..] && b == [b[0]] + b[1..];
    }
  }
}
