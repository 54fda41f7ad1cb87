/** Decoding of the MPU-6050 data registers as read over the I2C bus: single
    signed bytes, 16-bit words, the 14-byte burst read of ACCEL_XOUT_H through
    GYRO_ZOUT_L (InvenSense MPU-6000/MPU-6050 Register Map, sections 4.17 to
    4.19), and the byte-order reversal helper of the bus wrapper.

    The bus transactions and their retry-forever loops are not modelled: each
    decoder takes the bytes the bus returned. */
module Registers {

  /** A byte as delivered by the bus driver. */
  type Byte = b: int | 0 <= b < 256

  // ---------------------------------------------------------------------------
  // Single registers
  // ---------------------------------------------------------------------------

  /** `readS8`: a register byte read as a two's-complement signed byte. */
  function ReadS8(b: Byte): (v: int)
    ensures -128 <= v <= 127
    ensures v % 256 == b
  {
    if b > 127 then b - 256 else b
  }

  /** The byte a signed 8-bit value is stored as. */
  function EncodeS8(v: int): Byte
    requires -128 <= v <= 127
  {
    v % 256
  }

  /** Decoding inverts encoding, in both directions. */
  lemma ReadS8RoundTrip(b: Byte, v: int)
    requires -128 <= v <= 127
    ensures ReadS8(EncodeS8(v)) == v
    ensures EncodeS8(ReadS8(b)) == b
  {
  }

  /** `readU16`: high byte at `reg`, low byte at `reg + 1`. */
  function ReadU16(hi: Byte, lo: Byte): (v: int)
    ensures 0 <= v < 65536
    ensures v / 256 == hi && v % 256 == lo
  {
    hi * 256 + lo
  }

  /** `readS16`, and the per-word arithmetic of the burst parse: the high byte is
      sign-extended and shifted left by eight, then the low byte is added. */
  function ReadS16(hi: Byte, lo: Byte): (v: int)
    ensures -32768 <= v <= 32767
    ensures hi <= 127 ==> v == hi * 256 + lo
    ensures hi > 127 ==> v == hi * 256 + lo - 65536
    ensures v % 65536 == ReadU16(hi, lo)
  {
    var signedHi := if hi > 127 then hi - 256 else hi;
    signedHi * 256 + lo
  }

  /** The (high, low) byte pair a signed 16-bit value is stored as. */
  function EncodeS16(v: int): (Byte, Byte)
    requires -32768 <= v <= 32767
  {
    var u := v % 65536;
    (u / 256, u % 256)
  }

  /** Every signed 16-bit value survives storage in two registers, and every byte
      pair survives decoding and re-encoding. */
  lemma ReadS16RoundTrip(hi: Byte, lo: Byte, v: int)
    requires -32768 <= v <= 32767
    ensures ReadS16(EncodeS16(v).0, EncodeS16(v).1) == v
    ensures EncodeS16(ReadS16(hi, lo)) == (hi, lo)
  {
  }

  // ---------------------------------------------------------------------------
  // The 14-byte burst read
  // ---------------------------------------------------------------------------

  /** The seven words of one burst read, in register order. */
  datatype RawFrame = RawFrame(ax: int, ay: int, az: int, temp: int, gx: int, gy: int, gz: int)

  /** Word `k` of a burst read sits at bytes `2k` (high) and `2k + 1` (low). */
  function Word(data: seq<Byte>, k: nat): int
    requires 2 * k + 1 < |data|
  {
    ReadS16(data[2 * k], data[2 * k + 1])
  }

  /** The register map's order: ACCEL_XOUT, ACCEL_YOUT, ACCEL_ZOUT, TEMP_OUT,
      GYRO_XOUT, GYRO_YOUT, GYRO_ZOUT, each high byte first. */
  function FrameOfWords(data: seq<Byte>): RawFrame
    requires |data| == 14
  {
    RawFrame(Word(data, 0), Word(data, 1), Word(data, 2), Word(data, 3),
             Word(data, 4), Word(data, 5), Word(data, 6))
  }

  predicate InRange16(v: int) {
    -32768 <= v <= 32767
  }

  predicate FrameInRange(f: RawFrame) {
    InRange16(f.ax) && InRange16(f.ay) && InRange16(f.az) && InRange16(f.temp)
    && InRange16(f.gx) && InRange16(f.gy) && InRange16(f.gz)
  }

  /** The bytes a frame occupies in the sensor's data registers. */
  function EncodeFrame(f: RawFrame): (data: seq<Byte>)
    requires FrameInRange(f)
    ensures |data| == 14
  {
    var a := EncodeS16(f.ax);
    var b := EncodeS16(f.ay);
    var c := EncodeS16(f.az);
    var t := EncodeS16(f.temp);
    var x := EncodeS16(f.gx);
    var y := EncodeS16(f.gy);
    var z := EncodeS16(f.gz);
    [a.0, a.1, b.0, b.1, c.0, c.1, t.0, t.1, x.0, x.1, y.0, y.1, z.0, z.1]
  }

  /** `readSensorsRaw`'s parse loop: walk the 14 bytes two at a time, sign-extend
      each high byte and combine it with the following low byte. */
  method ParseFrame(data: seq<Byte>) returns (f: RawFrame)
    requires |data| == 14
    ensures f == FrameOfWords(data)
    ensures FrameInRange(f)
  {
    var words: seq<int> := [];
    var index := 0;
    while index < 14
      invariant 0 <= index <= 14 && index % 2 == 0
      invariant |words| == index / 2
      invariant forall k :: 0 <= k < |words| ==> words[k] == Word(data, k)
    {
      var hi: int := data[index];
      if hi > 127 {
        hi := hi - 256;
      }
      words := words + [hi * 256 + data[index + 1]];
      index := index + 2;
    }
    f := RawFrame(words[0], words[1], words[2], words[3], words[4], words[5], words[6]);
  }

  /** Any in-range frame stored in the registers is parsed back unchanged, so the
      parse places each quantity in its own slot. */
  lemma FrameRoundTrip(f: RawFrame)
    requires FrameInRange(f)
    ensures FrameOfWords(EncodeFrame(f)) == f
  {
    var data := EncodeFrame(f);
    ReadS16RoundTrip(0, 0, f.ax);
    ReadS16RoundTrip(0, 0, f.ay);
    ReadS16RoundTrip(0, 0, f.az);
    ReadS16RoundTrip(0, 0, f.temp);
    ReadS16RoundTrip(0, 0, f.gx);
    ReadS16RoundTrip(0, 0, f.gy);
    ReadS16RoundTrip(0, 0, f.gz);
  }

  // ---------------------------------------------------------------------------
  // reverseByteOrder
  // ---------------------------------------------------------------------------

  /** Number of digits `hex()` prints for a non-negative value (without "0x"). */
  function HexDigits(n: nat): (d: nat)
    ensures d >= 1
  {
    if n < 16 then 1 else 1 + HexDigits(n / 16)
  }

  /** `len(dstr[::2])`: every second hex digit, i.e. half the digits rounded up. */
  function ByteCount(n: nat): nat {
    (HexDigits(n) + 1) / 2
  }

  /** Number of significant bytes of `n` (at least one). */
  function SignificantBytes(n: nat): (k: nat)
    ensures k >= 1
  {
    if n < 256 then 1 else 1 + SignificantBytes(n / 256)
  }

  function Pow256(k: nat): (p: nat)
    ensures p >= 1
  {
    if k == 0 then 1 else 256 * Pow256(k - 1)
  }

  /** The `k` least significant bytes of `n`, least significant first: the
      successive values of `data & 0xFF` as `data >>= 8` runs. */
  function LowBytes(n: nat, k: nat): (s: seq<Byte>)
    ensures |s| == k
  {
    if k == 0 then [] else [n % 256] + LowBytes(n / 256, k - 1)
  }

  /** Value of a byte string whose first byte is the most significant. */
  function BigEndian(s: seq<Byte>): nat {
    if |s| == 0 then 0 else BigEndian(s[..|s| - 1]) * 256 + s[|s| - 1]
  }

  /** Value of a byte string whose first byte is the least significant. */
  function LittleEndian(s: seq<Byte>): nat {
    if |s| == 0 then 0 else s[0] + 256 * LittleEndian(s[1..])
  }

  function Reverse<T>(s: seq<T>): (r: seq<T>)
    ensures |r| == |s|
  {
    if |s| == 0 then [] else Reverse(s[1..]) + [s[0]]
  }

  /** What `reverseByteOrder` computes: the value's significant bytes, as counted
      from its hex digits, laid out in the opposite order. */
  function ReversedValue(n: nat): nat {
    BigEndian(LowBytes(n, ByteCount(n)))
  }

  /** `reverseByteOrder` for non-negative values. Each byte lands in its own byte
      lane, so the source's `|=` adds. */
  method ReverseByteOrder(data: nat) returns (val: nat)
    ensures val == ReversedValue(data)
    ensures val < Pow256(ByteCount(data))
  {
    var byteCount := ByteCount(data);
    ghost var bytes := LowBytes(data, byteCount);
    var d := data;
    val := 0;
    var i := 0;
    while i < byteCount
      invariant 0 <= i <= byteCount
      invariant LowBytes(d, byteCount - i) == bytes[i..]
      invariant val == BigEndian(bytes[..i]) * Pow256(byteCount - i)
    {
      ReverseStep(bytes, i, d, val);
      var b := d % 256;
      val := val + b * Pow256(byteCount - i - 1);
      d := d / 256;
      i := i + 1;
    }
    assert bytes[..byteCount] == bytes;
    BigEndianBound(bytes);
  }

  /** One turn of the reversal loop: the next low byte of what is left of the
      value is the next byte of the reversed string, and adding it in its lane
      extends the big-endian prefix by that byte. */
  lemma ReverseStep(bytes: seq<Byte>, i: nat, d: nat, val: nat)
    requires i < |bytes|
    requires LowBytes(d, |bytes| - i) == bytes[i..]
    requires val == BigEndian(bytes[..i]) * Pow256(|bytes| - i)
    ensures LowBytes(d / 256, |bytes| - i - 1) == bytes[i + 1..]
    ensures val + (d % 256) * Pow256(|bytes| - i - 1) == BigEndian(bytes[..i + 1]) * Pow256(|bytes| - i - 1)
  {
    var m := |bytes| - i - 1;
    assert bytes[i..] == [bytes[i]] + bytes[i + 1..];
    assert d % 256 == bytes[i];
    assert bytes[..i + 1][..i] == bytes[..i];
    assert BigEndian(bytes[..i + 1]) == BigEndian(bytes[..i]) * 256 + bytes[i];
    assert Pow256(m + 1) == 256 * Pow256(m);
    ShiftIn(BigEndian(bytes[..i]), bytes[i], Pow256(m));
  }

  lemma ShiftIn(a: int, b: int, p: int)
    ensures a * (256 * p) + b * p == (a * 256 + b) * p
  {
  }

  lemma {:induction false} BigEndianBound(s: seq<Byte>)
    ensures BigEndian(s) < Pow256(|s|)
  {
    if |s| > 0 {
      BigEndianBound(s[..|s| - 1]);
    }
  }

  /** The hex-digit count of the source equals the number of significant bytes. */
  lemma {:induction false} ByteCountIsSignificantBytes(n: nat)
    ensures ByteCount(n) == SignificantBytes(n)
  {
    if n >= 256 {
      assert n / 16 >= 16;
      assert n / 16 / 16 == n / 256;
      assert HexDigits(n) == 2 + HexDigits(n / 256);
      ByteCountIsSignificantBytes(n / 256);
    } else if n >= 16 {
      assert HexDigits(n / 16) == 1;
    }
  }

  /** A value with exactly `k` significant bytes. */
  lemma {:induction false} SignificantBytesOfRange(m: nat, k: nat)
    requires k >= 1
    requires Pow256(k - 1) <= m < Pow256(k)
    ensures SignificantBytes(m) == k
  {
    if k > 1 {
      assert Pow256(k - 1) == 256 * Pow256(k - 2);
      SignificantBytesOfRange(m / 256, k - 1);
    }
  }

  /** Every value fits in its significant bytes. */
  lemma {:induction false} SignificantBytesBound(n: nat)
    ensures n < Pow256(SignificantBytes(n))
  {
    if n >= 256 {
      SignificantBytesBound(n / 256);
    }
  }

  /** Splitting the big-endian value of a byte string back into bytes yields the
      string reversed. */
  lemma {:induction false} LowBytesOfBigEndian(s: seq<Byte>)
    ensures LowBytes(BigEndian(s), |s|) == Reverse(s)
  {
    if |s| > 0 {
      var init := s[..|s| - 1];
      var v := BigEndian(s);
      assert v == BigEndian(init) * 256 + s[|s| - 1];
      assert v % 256 == s[|s| - 1];
      assert v / 256 == BigEndian(init);
      LowBytesOfBigEndian(init);
      ReverseOfSnoc(init, s[|s| - 1]);
      assert s == init + [s[|s| - 1]];
    }
  }

  lemma {:induction false} ReverseOfSnoc<T>(s: seq<T>, x: T)
    ensures Reverse(s + [x]) == [x] + Reverse(s)
  {
    if |s| > 0 {
      assert (s + [x])[1..] == s[1..] + [x];
      ReverseOfSnoc(s[1..], x);
    }
  }

  /** Reading a byte string back to front is reading its reverse front to back. */
  lemma {:induction false} BigEndianOfReverse(s: seq<Byte>)
    ensures BigEndian(Reverse(s)) == LittleEndian(s)
  {
    if |s| > 0 {
      var r := Reverse(s);
      assert r == Reverse(s[1..]) + [s[0]];
      assert r[..|r| - 1] == Reverse(s[1..]);
      BigEndianOfReverse(s[1..]);
    }
  }

  /** The `k` low bytes of a value below `256^k` spell out the value. */
  lemma {:induction false} LittleEndianOfLowBytes(n: nat, k: nat)
    requires n < Pow256(k)
    ensures LittleEndian(LowBytes(n, k)) == n
  {
    if k > 0 {
      LittleEndianOfLowBytes(n / 256, k - 1);
      assert LowBytes(n, k)[1..] == LowBytes(n / 256, k - 1);
    }
  }

  /** Byte reversal keeps the number of significant bytes when the lowest byte
      is non-zero, because that byte becomes the most significant one. */
  lemma ReversedKeepsByteCount(n: nat)
    requires n % 256 != 0
    ensures ByteCount(ReversedValue(n)) == ByteCount(n)
  {
    var k := ByteCount(n);
    var bytes := LowBytes(n, k);
    ByteCountIsSignificantBytes(n);
    BigEndianLowerBound(bytes);
    BigEndianBound(bytes);
    SignificantBytesOfRange(ReversedValue(n), k);
    ByteCountIsSignificantBytes(ReversedValue(n));
  }

  /** A byte string with a non-zero leading byte is worth at least `256^(len-1)`. */
  lemma {:induction false} BigEndianLowerBound(s: seq<Byte>)
    requires |s| >= 1 && s[0] != 0
    ensures BigEndian(s) >= Pow256(|s| - 1)
  {
    if |s| > 1 {
      assert s[..|s| - 1][0] == s[0];
      BigEndianLowerBound(s[..|s| - 1]);
    }
  }

  /** Reversing twice restores any value whose lowest byte is non-zero. (A zero
      lowest byte becomes a leading zero and is dropped by the second pass, so
      the restriction is necessary: 0x0100 reverses to 0x0001.) */
  lemma ReverseByteOrderInvolution(n: nat)
    requires n % 256 != 0
    ensures ReversedValue(ReversedValue(n)) == n
  {
    var k := ByteCount(n);
    var bytes := LowBytes(n, k);
    ReversedKeepsByteCount(n);
    LowBytesOfBigEndian(bytes);
    BigEndianOfReverse(bytes);
    ByteCountIsSignificantBytes(n);
    SignificantBytesBound(n);
    LittleEndianOfLowBytes(n, k);
  }

  /** The leading zero byte is dropped: `reverseByteOrder(0x0100) == 1`. */
  lemma ReverseDropsLeadingZero()
    ensures ReversedValue(0x0100) == 0x01
    ensures ReversedValue(ReversedValue(0x0100)) == 0x01
  {
    assert HexDigits(0x0100) == 3 by {
      assert HexDigits(16) == 2;
    }
    assert LowBytes(0x0100, 2) == [0, 1];
    assert [0, 1][..1] == [0];
    assert [0][..0] == [];
    assert BigEndian([0, 1]) == 1;
    assert HexDigits(1) == 1;
    assert LowBytes(1, 1) == [1];
    assert [1][..0] == [];
  }
}
