/** The Internet checksum put into an ICMP echo request (section 1 of RFC 1071, RFC 792). */
module IcmpChecksum {
  type Byte = b: int | 0 <= b < 256

  const Ones := 0xFFFF
  const Word32 := 0x1_0000_0000

  function Pair(high: int, low: int): (w: nat)
    requires 0 <= high < 256 && 0 <= low < 256
    ensures w <= Ones
  {
    high * 256 + low
  }

  /** The message as 16-bit big-endian words, a last odd byte padded with zero. */
  function Words(m: seq<Byte>): (w: seq<nat>)
    ensures forall i :: 0 <= i < |w| ==> w[i] <= Ones
    ensures |w| == (|m| + 1) / 2
  {
    if m == [] then []
    else if |m| == 1 then [Pair(m[0], 0)]
    else [Pair(m[0], m[1])] + Words(m[2..])
  }

  // ---------------------------------------------------------------- the sum the standard defines

  /** One's complement addition: a carry out of the top comes back in at the bottom. */
  function OnesAdd(a: nat, b: nat): (c: nat)
    requires a <= Ones && b <= Ones
    ensures c <= Ones
  {
    if a + b > Ones then a + b - Ones else a + b
  }

  function OnesSum(acc: nat, w: seq<nat>): (s: nat)
    requires acc <= Ones && forall i :: 0 <= i < |w| ==> w[i] <= Ones
    ensures s <= Ones
    decreases |w|
  {
    if w == [] then acc else OnesSum(OnesAdd(acc, w[0]), w[1..])
  }

  /** The checksum of RFC 1071: the complement of the one's complement sum of the words. */
  function Checksum(m: seq<Byte>): (c: nat)
    ensures c <= Ones
  {
    Ones - OnesSum(0, Words(m))
  }

  // ---------------------------------------------------------------- the sum the program forms

  function Total(w: seq<nat>): nat {
    if w == [] then 0 else w[0] + Total(w[1..])
  }

  /** Folding the carries of a wide sum back in until none is left. */
  function Fold(s: nat): nat {
    if s / 0x1_0000 == 0 then s else Fold(s % 0x1_0000 + s / 0x1_0000)
  }

  lemma AddOnes(x: nat, q: nat)
    ensures (x + Ones * q) % Ones == x % Ones
    decreases q
  {
    if q > 0 {
      AddOnes(x, q - 1);
      assert x + Ones * q == (x + Ones * (q - 1)) + Ones;
    }
  }

  lemma {:induction false} FoldKeeps(s: nat)
    ensures Fold(s) <= Ones && Fold(s) % Ones == s % Ones && (Fold(s) == 0 <==> s == 0)
    decreases s
  {
    var q, r := s / 0x1_0000, s % 0x1_0000;
    if q > 0 {
      FoldKeeps(r + q);
      AddOnes(r + q, q);
      assert s == (r + q) + Ones * q;
    }
  }

  /** Sixteen-bit sums that agree modulo 0xFFFF and in being zero are equal. */
  lemma SameSum(a: nat, b: nat)
    requires a <= Ones && b <= Ones && a % Ones == b % Ones && (a == 0 <==> b == 0)
    ensures a == b
  {
  }

  lemma {:induction false} OnesSumKeeps(acc: nat, w: seq<nat>)
    requires acc <= Ones && forall i :: 0 <= i < |w| ==> w[i] <= Ones
    ensures OnesSum(acc, w) % Ones == (acc + Total(w)) % Ones
    ensures OnesSum(acc, w) == 0 <==> acc + Total(w) == 0
    decreases |w|
  {
    if w != [] {
      OnesSumKeeps(OnesAdd(acc, w[0]), w[1..]);
      if acc + w[0] > Ones { AddOnes(OnesAdd(acc, w[0]) + Total(w[1..]), 1); }
    }
  }

  /** Summing wide and folding at the end is one's complement addition word by word. */
  lemma FoldedTotalIsOnesSum(m: seq<Byte>)
    ensures Ones - Fold(Total(Words(m))) == Checksum(m)
  {
    var w := Words(m);
    FoldKeeps(Total(w));
    OnesSumKeeps(0, w);
    SameSum(Fold(Total(w)), OnesSum(0, w));
  }

  lemma {:induction false} TotalBound(w: seq<nat>)
    requires forall i :: 0 <= i < |w| ==> w[i] <= Ones
    ensures Total(w) <= Ones * |w|
    decreases |w|
  {
    if w != [] { TotalBound(w[1..]); }
  }

  lemma ModDiffers(t: nat, k: nat)
    requires 0 < k < Ones
    ensures (t + k) % Ones != t % Ones
  {
    var q, r := t / Ones, t % Ones;
    assert t + k == (r + k) + Ones * q;
    AddOnes(r + k, q);
  }

  lemma ModAgrees(t: nat, k: nat)
    ensures (t + k) % Ones == t % Ones <==> k % Ones == 0
  {
    var q, r := k / Ones, k % Ones;
    assert t + k == (t + r) + Ones * q;
    AddOnes(t + r, q);
    if r > 0 { ModDiffers(t, r); }
  }

  /** Each wrap of the 32-bit accumulator loses one from the sum; 0xFFFF of them cancel out. */
  predicate WrapsCancel(total: nat) {
    (total / Word32) % Ones == 0 && (total % Word32 == 0 ==> total == 0)
  }

  lemma WrapResidue(total: nat)
    ensures total % Ones == (total % Word32 + total / Word32) % Ones
  {
    var k, t := total / Word32, total % Word32;
    AddOnes(t + k, 0x1_0001 * k);
    assert total == (t + k) + Ones * (0x1_0001 * k);
  }

  lemma FoldsAgreeIff(a: nat, b: nat)
    ensures Fold(a) == Fold(b) <==> a % Ones == b % Ones && (a == 0 <==> b == 0)
  {
    FoldKeeps(a);
    FoldKeeps(b);
    if a % Ones == b % Ones && (a == 0 <==> b == 0) { SameSum(Fold(a), Fold(b)); }
  }

  lemma WrapIsLost(total: nat)
    ensures Fold(total % Word32) == Fold(total) <==> WrapsCancel(total)
  {
    FoldsAgreeIff(total % Word32, total);
    WrapResidue(total);
    ModAgrees(total % Word32, total / Word32);
  }

  lemma ShortDoesNotWrap(m: seq<Byte>)
    requires |m| <= 2 * 0x1_0001
    ensures WrapsCancel(Total(Words(m)))
  {
    var w := Words(m);
    TotalBound(w);
    assert |w| <= 0x1_0001;
    BelowDoesNotWrap(Total(w));
  }

  lemma BelowDoesNotWrap(total: nat)
    requires total < Word32
    ensures WrapsCancel(total)
  {
  }

  lemma WrapStep(exact: nat, word: nat)
    ensures (exact % Word32 + word) % Word32 == (exact + word) % Word32
  {
  }

  /** The first loop: the words of the message, summed in 32 bits. */
  method Accumulate(message: seq<Byte>) returns (sum: nat)
    ensures sum == Total(Words(message)) % Word32
  {
    var rest := message;
    ghost var exact: nat := 0;
    sum := 0;
    while |rest| >= 2
      invariant sum == exact % Word32
      invariant exact + Total(Words(rest)) == Total(Words(message))
    {
      var word := Pair(rest[0], rest[1]);
      TotalUnfolds(rest);
      WrapStep(exact, word);
      sum, exact := (sum + word) % Word32, exact + word;
      rest := rest[2..];
    }
    if |rest| == 1 {
      var word := Pair(rest[0], 0);
      TotalUnfolds(rest);
      WrapStep(exact, word);
      sum, exact := (sum + word) % Word32, exact + word;
    }
  }

  /** The second loop. */
  method FoldCarries(wide: nat) returns (sum: nat)
    ensures sum == Fold(wide)
  {
    sum := wide;
    while sum / 0x1_0000 != 0
      invariant Fold(sum) == Fold(wide)
      decreases sum
    {
      sum := sum % 0x1_0000 + sum / 0x1_0000;
    }
  }

  /**
   * The checksum as computed, in a 32-bit accumulator. It is the standard's
   * for every message of up to 65537 words, which cannot wrap the
   * accumulator, and beyond that exactly when the wraps cancel out.
   */
  method ComputeChecksum(message: seq<Byte>) returns (c: nat)
    ensures c <= Ones
    ensures |message| <= 2 * 0x1_0001 ==> c == Checksum(message)
    ensures c == Checksum(message) <==> WrapsCancel(Total(Words(message)))
  {
    var sum := Accumulate(message);
    ghost var total := Total(Words(message));
    FoldKeeps(sum);
    FoldKeeps(total);
    sum := FoldCarries(sum);
    c := Ones - sum;
    FoldedTotalIsOnesSum(message);
    WrapIsLost(total);
    if |message| <= 2 * 0x1_0001 { ShortDoesNotWrap(message); }
  }

  // ---------------------------------------------------------------- the field in the message

  /** A 16-bit value stored big-endian at bytes 2 and 3. */
  function Store(m: seq<Byte>, v: nat): (m': seq<Byte>)
    requires |m| >= 4 && v <= Ones
    ensures |m'| == |m|
  {
    m[2 := v / 256][3 := v % 256]
  }

  lemma TotalOfField(m: seq<Byte>, v: nat)
    requires |m| >= 4 && m[2] == 0 && m[3] == 0 && v <= Ones
    ensures Total(Words(Store(m, v))) == Total(Words(m)) + v
  {
    var m' := Store(m, v);
    assert m'[2..][2..] == m[2..][2..];
    assert Words(m) == [Pair(m[0], m[1])] + Words(m[2..]);
    assert Words(m') == [Pair(m[0], m[1])] + Words(m'[2..]);
    assert Words(m[2..]) == [Pair(0, 0)] + Words(m[2..][2..]);
    assert Words(m'[2..]) == [Pair(v / 256, v % 256)] + Words(m[2..][2..]);
  }

  /** A message checks out when its sum is a non-zero multiple of 0xFFFF. */
  lemma ZeroChecksum(m: seq<Byte>)
    ensures Checksum(m) == 0 <==> Total(Words(m)) % Ones == 0 && Total(Words(m)) != 0
  {
    OnesSumKeeps(0, Words(m));
  }

  /**
   * Of all values for the zeroed field, the message checks out with the
   * computed one, and otherwise only with the other zero of one's
   * complement in its place.
   */
  lemma StoredFieldVerifies(m: seq<Byte>, v: nat)
    requires |m| >= 4 && m[2] == 0 && m[3] == 0 && v <= Ones
    ensures Checksum(Store(m, v)) == 0 <==> v == Checksum(m) || (Checksum(m) == 0 && v == Ones)
  {
    var total := Total(Words(m));
    TotalOfField(m, v);
    ZeroChecksum(Store(m, v));
    OnesSumKeeps(0, Words(m));
    FieldArithmetic(total, OnesSum(0, Words(m)), v);
  }

  lemma FieldArithmetic(total: nat, s: nat, v: nat)
    requires s <= Ones && v <= Ones && s % Ones == total % Ones && (s == 0 <==> total == 0)
    ensures (total + v) % Ones == 0 && total + v != 0 <==> v == Ones - s || (s == Ones && v == Ones)
  {
    var q := total / Ones;
    AddOnes(total % Ones + v, q);
    assert total + v == (total % Ones + v) + Ones * q;
  }

  // ---------------------------------------------------------------- what it detects

  /** What a change to byte i adds to the sum. */
  function Change(i: int, d: int): int {
    if i % 2 == 0 then 256 * d else d
  }

  lemma TotalUnfolds(m: seq<Byte>)
    requires m != []
    ensures |m| == 1 ==> Total(Words(m)) == Pair(m[0], 0)
    ensures |m| >= 2 ==> Total(Words(m)) == Pair(m[0], m[1]) + Total(Words(m[2..]))
  {
  }

  lemma ChangeRepeats(i: int, d: int)
    ensures Change(i, d) == Change(i - 2, d)
  {
  }

  lemma TotalOfFirst(m: seq<Byte>, i: int, b: Byte)
    requires 0 <= i < |m| && i < 2
    ensures Total(Words(m[i := b])) == Total(Words(m)) + Change(i, b - m[i])
  {
    var m' := m[i := b];
    TotalUnfolds(m);
    TotalUnfolds(m');
    if |m| >= 2 {
      assert m'[2..] == m[2..];
      if i == 0 {
        assert m'[1] == m[1];
      } else {
        assert m'[0] == m[0];
      }
    }
  }

  lemma {:induction false} TotalOfByte(m: seq<Byte>, i: int, b: Byte)
    requires 0 <= i < |m|
    ensures Total(Words(m[i := b])) == Total(Words(m)) + Change(i, b - m[i])
    decreases |m|
  {
    if i < 2 {
      TotalOfFirst(m, i, b);
    } else {
      var m', rest := m[i := b], m[2..];
      TotalUnfolds(m);
      TotalUnfolds(m');
      assert m'[2..] == rest[i - 2 := b];
      TotalOfByte(rest, i - 2, b);
      ChangeRepeats(i, b - m[i]);
    }
  }

  /** A message that checks out no longer does with any one byte changed. */
  lemma ChangedByteIsDetected(m: seq<Byte>, i: int, b: Byte)
    requires Checksum(m) == 0 && 0 <= i < |m| && b != m[i]
    ensures Checksum(m[i := b]) != 0
  {
    TotalOfByte(m, i, b);
    ZeroChecksum(m);
    ZeroChecksum(m[i := b]);
    var d := Change(i, b - m[i]);
    if d > 0 {
      ModDiffers(Total(Words(m)), d);
    } else {
      ModDiffers(Total(Words(m[i := b])), -d);
    }
  }
}
