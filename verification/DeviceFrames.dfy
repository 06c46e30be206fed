/** Canonical device identities: a namespace and length-prefixed parts. */
module DeviceFrames {
  import opened Decimal
  import opened Text

  function FrameParts(parts: seq<string>): string {
    if parts == [] then ""
    else Itoa(|parts[0]|) + ":" + (parts[0] + ("\0" + FrameParts(parts[1..])))
  }

  function Frame(namespace: string, parts: seq<string>): string {
    namespace + "\0" + FrameParts(parts)
  }

  /** The loop that writes a frame into a buffer. */
  method FrameDeviceIdentity(namespace: string, parts: seq<string>) returns (out: string)
    ensures out == Frame(namespace, parts)
  {
    out := namespace + "\0";
    for i := 0 to |parts|
      invariant out + FrameParts(parts[i..]) == Frame(namespace, parts)
    {
      assert parts[i..][1..] == parts[i + 1..];
      var part := Itoa(|parts[i]|) + ":" + parts[i] + "\0";
      assert FrameParts(parts[i..]) == part + FrameParts(parts[i + 1..]);
      assert out + (part + FrameParts(parts[i + 1..])) == (out + part) + FrameParts(parts[i + 1..]);
      out := out + part;
    }
  }

  lemma SplitAtLength(a: string, x: string, b: string, y: string)
    requires |a| == |b| && a + x == b + y
    ensures a == b && x == y
  {
    assert a == (a + x)[..|a|] && b == (b + y)[..|b|];
    assert x == (a + x)[|a|..] && y == (b + y)[|b|..];
  }

  lemma FirstPart(a: string, rest: string, b: string, other: string)
    requires Itoa(|a|) + ":" + (a + ("\0" + rest)) == Itoa(|b|) + ":" + (b + ("\0" + other))
    ensures a == b && rest == other
  {
    DigitsThenMark(Itoa(|a|), Itoa(|b|), a + ("\0" + rest), b + ("\0" + other), ':');
    ItoaInjective(|a|, |b|);
    SplitAtLength(a, "\0" + rest, b, "\0" + other);
    SplitAtLength("\0", rest, "\0", other);
  }

  lemma {:induction false} FramePartsInjective(a: seq<string>, b: seq<string>)
    requires FrameParts(a) == FrameParts(b)
    ensures a == b
    decreases |a|
  {
    if a != [] && b != [] {
      FirstPart(a[0], FrameParts(a[1..]), b[0], FrameParts(b[1..]));
      FramePartsInjective(a[1..], b[1..]);
      assert a == [a[0]] + a[1..] && b == [b[0]] + b[1..];
    }
  }

  /** A frame can be read back: its parts may hold any bytes, its namespace any but NUL. */
  lemma FrameInjective(namespace: string, parts: seq<string>, namespace': string, parts': seq<string>)
    requires '\0' !in namespace && '\0' !in namespace'
    requires Frame(namespace, parts) == Frame(namespace', parts')
    ensures namespace == namespace' && parts == parts'
  {
    SplitAtNul(namespace, namespace', FrameParts(parts), FrameParts(parts'));
    FramePartsInjective(parts, parts');
  }

  // ---------------------------------------------------------------- what is hashed

  const SeriesDomain := "yaog-device-series-v1"

  /** The bytes hashed into a series id: domain, kind, canonical identity. */
  function SeriesPreimage(kind: string, canonical: string): string {
    SeriesDomain + "\0" + kind + "\0" + canonical
  }

  lemma SeriesPreimageInjective(kind: string, canonical: string, kind': string, canonical': string)
    requires '\0' !in kind && '\0' !in kind'
    requires SeriesPreimage(kind, canonical) == SeriesPreimage(kind', canonical')
    ensures kind == kind' && canonical == canonical'
  {
    var x, y := kind + "\0" + canonical, kind' + "\0" + canonical';
    assert SeriesPreimage(kind, canonical) == SeriesDomain + "\0" + x;
    assert SeriesPreimage(kind', canonical') == SeriesDomain + "\0" + y;
    SplitAtNul(SeriesDomain, SeriesDomain, x, y);
    SplitAtNul(kind, kind', canonical, canonical');
  }
}
