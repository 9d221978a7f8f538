/** Bit lengths of key moduli and certificate serials as big-endian numbers. */
module BigEndian {
  import opened Options

  type Byte = x: int | 0 <= x < 256

  /** The number that a byte string stands for. */
  function Value(bytes: seq<Byte>): nat {
    if bytes == [] then 0 else Value(bytes[..|bytes| - 1]) * 256 + bytes[|bytes| - 1]
  }

  function Pow2(n: nat): (p: nat)
    ensures p >= 1
  {
    if n == 0 then 1 else 2 * Pow2(n - 1)
  }

  /** The bit length of a number, defined without bytes. */
  function BitLength(v: nat): nat {
    if v == 0 then 0 else 1 + BitLength(v / 2)
  }

  /** `u8::leading_zeros` */
  function LeadingZeros(b: Byte): nat {
    if b >= 128 then 0
    else if b >= 64 then 1
    else if b >= 32 then 2
    else if b >= 16 then 3
    else if b >= 8 then 4
    else if b >= 4 then 5
    else if b >= 2 then 6
    else if b == 1 then 7
    else 8
  }

  /** The position of the first byte that is not zero. */
  function FirstNonZero(bytes: seq<Byte>): (r: Option<nat>)
    ensures match r
            case None => forall i :: 0 <= i < |bytes| ==> bytes[i] == 0
            case Some(k) => k < |bytes| && bytes[k] != 0 && forall i :: 0 <= i < k ==> bytes[i] == 0
  {
    if bytes == [] then None
    else if bytes[0] != 0 then Some(0)
    else
      match FirstNonZero(bytes[1..])
      case None => None
      case Some(k) => Some(k + 1)
  }

  /** `significant_bits` */
  function SignificantBits(bytes: seq<Byte>): int {
    match FirstNonZero(bytes)
    case None => 0
    case Some(k) => (|bytes| - k) * 8 - LeadingZeros(bytes[k])
  }

  // ---------------------------------------------------------------- values

  /** Prepending a zero byte does not change the value. */
  lemma {:induction false} LeadingZero(bytes: seq<Byte>)
    ensures Value([0] + bytes) == Value(bytes)
  {
    var s: seq<Byte> := [0] + bytes;
    if bytes == [] {
      assert s[..0] == [];
    } else {
      LeadingZero(bytes[..|bytes| - 1]);
      assert s[..|s| - 1] == [0] + bytes[..|bytes| - 1];
    }
  }

  lemma {:induction false} Shift8(n: nat)
    ensures Pow2(n + 8) == 256 * Pow2(n)
  {
    Shift2(n + 6);
    Shift2(n + 4);
    Shift2(n + 2);
    Shift2(n);
  }

  lemma {:induction false} Shift2(n: nat)
    ensures Pow2(n + 2) == 4 * Pow2(n)
  {
    assert Pow2(n + 2) == 2 * Pow2(n + 1);
  }

  lemma {:induction false} AllZero(bytes: seq<Byte>)
    requires forall i :: 0 <= i < |bytes| ==> bytes[i] == 0
    ensures Value(bytes) == 0
  {
    if bytes != [] { AllZero(bytes[..|bytes| - 1]); }
  }

  /** One byte is its own value. */
  lemma OneByte(b: Byte)
    ensures Value([b]) == b
  {
    assert [b][..0] == [];
  }

  /** Earlier bytes weigh 256 times as much for each byte after them. */
  lemma {:induction false} ValueConcat(x: seq<Byte>, y: seq<Byte>)
    ensures Value(x + y) == Value(x) * Pow2(8 * |y|) + Value(y)
  {
    if y == [] {
      assert x + y == x;
    } else {
      var front, last := y[..|y| - 1], y[|y| - 1];
      ValueConcat(x, front);
      assert (x + y)[..|x + y| - 1] == x + front;
      Shift8(8 * |front|);
      assert 8 * |y| == 8 * |front| + 8;
      Scaled(Value(x), Pow2(8 * |front|), Value(front), last, Pow2(8 * |y|));
    }
  }

  lemma Scaled(v: nat, p: nat, w: nat, last: nat, q: nat)
    requires q == 256 * p
    ensures (v * p + w) * 256 + last == v * q + (w * 256 + last)
  {
    assert v * q == (v * p) * 256;
  }

  // ---------------------------------------------------------------- bit lengths

  /** A number of bit length `n` lies between the powers of two around it. */
  lemma {:induction false} BitLengthBounds(v: nat)
    ensures v < Pow2(BitLength(v))
    ensures v > 0 ==> Pow2(BitLength(v) - 1) <= v
  {
    if v > 1 { BitLengthBounds(v / 2); }
  }

  /** Appending `k` bits to a positive number adds `k` to its bit length. */
  lemma {:induction false} BitLengthShift(v: nat, k: nat, low: nat)
    requires v > 0 && low < Pow2(k)
    ensures BitLength(v * Pow2(k) + low) == BitLength(v) + k
  {
    if k > 0 {
      var p := Pow2(k - 1);
      assert v * Pow2(k) == 2 * (v * p);
      assert v * Pow2(k) > 0;
      assert (2 * (v * p) + low) / 2 == v * p + low / 2;
      BitLengthShift(v, k - 1, low / 2);
    }
  }

  lemma ByteLength(b: Byte)
    ensures BitLength(b) == 8 - LeadingZeros(b)
  {
    assert BitLength(b / 128) == b / 128;
    assert b / 2 / 2 / 2 / 2 / 2 / 2 / 2 == b / 128;
  }

  lemma FirstNonZeroFront(bytes: seq<Byte>)
    requires bytes != []
    ensures var front := FirstNonZero(bytes[..|bytes| - 1]);
            FirstNonZero(bytes) ==
            if front.Some? then front else if bytes[|bytes| - 1] != 0 then Some(|bytes| - 1) else None
  {
    var front := bytes[..|bytes| - 1];
    assert forall i :: 0 <= i < |front| ==> bytes[i] == front[i];
    match FirstNonZero(front)
    case Some(k) => FirstNonZeroIs(bytes, k);
    case None =>
      if bytes[|bytes| - 1] != 0 { FirstNonZeroIs(bytes, |bytes| - 1); }
  }

  lemma FirstNonZeroIs(bytes: seq<Byte>, k: nat)
    requires k < |bytes| && bytes[k] != 0 && forall i :: 0 <= i < k ==> bytes[i] == 0
    ensures FirstNonZero(bytes) == Some(k)
  {
  }

  /** `SignificantBits` is the bit length of the number, leading zeros or not. */
  lemma {:induction false} SignificantBitsIsBitLength(bytes: seq<Byte>)
    ensures SignificantBits(bytes) == BitLength(Value(bytes))
  {
    if bytes != [] {
      var front, last := bytes[..|bytes| - 1], bytes[|bytes| - 1];
      FirstNonZeroFront(bytes);
      SignificantBitsIsBitLength(front);
      if FirstNonZero(front).Some? {
        NonZero(front);
        assert Pow2(8) == 256 by { Shift8(0); }
        BitLengthShift(Value(front), 8, last);
      } else {
        AllZero(front);
        ByteLength(last);
      }
    }
  }

  lemma {:induction false} NonZero(bytes: seq<Byte>)
    requires FirstNonZero(bytes).Some?
    ensures Value(bytes) > 0
  {
    if bytes[|bytes| - 1] == 0 {
      FirstNonZeroFront(bytes);
      NonZero(bytes[..|bytes| - 1]);
    }
  }

  // ---------------------------------------------------------------- serials

  const I64_MAX: nat := 0x7FFF_FFFF_FFFF_FFFF

  /** `strip_prefix(&[0])`: one leading zero at most. */
  function Stripped(value: seq<Byte>): seq<Byte> {
    if value != [] && value[0] == 0 then value[1..] else value
  }

  lemma StrippedValue(value: seq<Byte>)
    ensures Value(Stripped(value)) == Value(value)
  {
    if value != [] && value[0] == 0 {
      LeadingZero(value[1..]);
      assert [0] + value[1..] == value;
    }
  }

  /** What `SerialI64` returns. */
  function Serial(value: seq<Byte>): int {
    if |Stripped(value)| <= 8 && Value(value) <= I64_MAX then Value(value) else -1
  }

  /** `serial_i64` */
  method SerialI64(value: seq<Byte>) returns (serial: int)
    ensures serial == Serial(value)
  {
    StrippedValue(value);
    var stripped := Stripped(value);
    if |stripped| > 8 {
      return -1;
    }
    var bytes := new Byte[8](_ => 0);
    var from := 8 - |stripped|;
    for k := 0 to |stripped|
      invariant forall i :: 0 <= i < from ==> bytes[i] == 0
      invariant forall i :: 0 <= i < k ==> bytes[from + i] == stripped[i]
    {
      bytes[from + k] := stripped[k];
    }
    ghost var zeros: seq<Byte> := seq(from, _ => 0);
    assert bytes[..] == zeros + stripped;
    PaddingIgnored(zeros, stripped);
    var number := FromBeBytes(bytes);
    serial := if number <= I64_MAX then number else -1;
  }

  method FromBeBytes(bytes: array<Byte>) returns (number: nat)
    ensures number == Value(bytes[..])
  {
    number := 0;
    for i := 0 to bytes.Length
      invariant number == Value(bytes[..i])
    {
      assert bytes[..i + 1][..i] == bytes[..i];
      number := number * 256 + bytes[i];
    }
    assert bytes[..bytes.Length] == bytes[..];
  }

  lemma {:induction false} PaddingIgnored(zeros: seq<Byte>, bytes: seq<Byte>)
    requires forall i :: 0 <= i < |zeros| ==> zeros[i] == 0
    ensures Value(zeros + bytes) == Value(bytes)
  {
    if zeros == [] {
      assert zeros + bytes == bytes;
    } else {
      PaddingIgnored(zeros[1..], bytes);
      LeadingZero(zeros[1..] + bytes);
      assert zeros + bytes == [0] + (zeros[1..] + bytes);
    }
  }

  /** What the serial should be. */
  function Expected(value: seq<Byte>): int {
    if Value(value) <= I64_MAX then Value(value) else -1
  }

  /** Shortest two's complement form of a number that is not negative: a leading zero only before
      a byte with its top bit set, or alone. */
  predicate Minimal(value: seq<Byte>) {
    |value| > 1 && value[0] == 0 ==> value[1] >= 128
  }

  /** The value of a byte string is at least its first byte in place. */
  lemma {:induction false} FirstByteCounts(bytes: seq<Byte>)
    requires bytes != [] && bytes[0] != 0
    ensures Value(bytes) >= Pow2(8 * (|bytes| - 1))
  {
    if |bytes| > 1 {
      FirstByteCounts(bytes[..|bytes| - 1]);
      Shift8(8 * (|bytes| - 2));
    }
  }

  /** Every minimally encoded serial that is too long is also too large. */
  lemma MinimalSerial(value: seq<Byte>)
    requires Minimal(value) && |Stripped(value)| > 8
    ensures Value(value) > I64_MAX
  {
    var s := Stripped(value);
    StrippedValue(value);
    FirstByteCounts(s);
    PowMonotone(64, 8 * (|s| - 1));
    PowOf64();
  }

  lemma {:induction false} PowMonotone(a: nat, b: nat)
    requires a <= b
    ensures Pow2(a) <= Pow2(b)
  {
    if a < b { PowMonotone(a, b - 1); }
  }

  lemma PowOf64()
    ensures Pow2(64) == 0x1_0000_0000_0000_0000
  {
    Shift8(0); Shift8(8); Shift8(16); Shift8(24); Shift8(32); Shift8(40); Shift8(48); Shift8(56);
  }

  /** Numbers of 64 bits or more are the ones that do not fit. */
  lemma LargeIff(v: nat)
    ensures v > I64_MAX <==> BitLength(v) >= 64
  {
    PowOf64();
    BitLengthBounds(v);
    var n := BitLength(v);
    if n >= 64 { PowMonotone(63, n - 1); } else { PowMonotone(n, 63); }
  }

  /** Decoding is right exactly when one leading zero at most keeps the serial within eight bytes,
      or the number needs 64 bits or more; so it is right for every minimally encoded serial. */
  lemma SerialRightIff(value: seq<Byte>)
    ensures Serial(value) == Expected(value) <==> |Stripped(value)| <= 8 || SignificantBits(value) >= 64
    ensures Serial(value) == Expected(value) || Serial(value) == -1
    ensures Minimal(value) ==> Serial(value) == Expected(value)
  {
    SignificantBitsIsBitLength(value);
    LargeIff(Value(value));
    if Minimal(value) && |Stripped(value)| > 8 { MinimalSerial(value); }
  }

  /** A small serial padded with extra zeros is lost. */
  lemma PaddedSerialLost()
    ensures exists value :: Serial(value) == -1 && Expected(value) == 1
  {
    var zeros: seq<Byte> := seq(9, _ => 0);
    PaddingIgnored(zeros, [1]);
    assert Value([1]) == 1 by { assert [1][..0] == []; }
    assert Serial(zeros + [1]) == -1 && Expected(zeros + [1]) == 1;
  }
}
