/** Bit-level view of bytes, and the two packings Modbus uses: bits packed
    least-significant first, and 16-bit registers stored big-endian. */
module Bits {
  import opened Bytes

  /** Bit k of b, that is `b & (1 << k) != 0`. */
  function Bit(b: nat, k: nat): bool
    decreases k
  {
    if k == 0 then b % 2 == 1 else Bit(b / 2, k - 1)
  }

  /** `b | (1 << k)`. */
  function SetBit(b: nat, k: nat): nat
    decreases k
  {
    if k == 0 then (if b % 2 == 1 then b else b + 1)
    else 2 * SetBit(b / 2, k - 1) + b % 2
  }

  function Pow2(n: nat): nat { if n == 0 then 1 else 2 * Pow2(n - 1) }

  lemma {:induction false} SetBitBit(b: nat, k: nat, j: nat)
    ensures Bit(SetBit(b, k), j) == (j == k || Bit(b, j))
    decreases k
  {
    if k > 0 && j > 0 {
      SetBitBit(b / 2, k - 1, j - 1);
    }
  }

  lemma {:induction false} SetBitRange(b: nat, k: nat, n: nat)
    requires b < Pow2(n) && k < n
    ensures SetBit(b, k) < Pow2(n)
    decreases k
  {
    if k > 0 {
      SetBitRange(b / 2, k - 1, n - 1);
    }
  }

  lemma Pow2Eight()
    ensures Pow2(8) == 256
  {
  }

  function OrBit(b: u8, k: nat): u8
    requires k < 8
  {
    Pow2Eight();
    SetBitRange(b, k, 8);
    SetBit(b, k)
  }

  /** Numbers below 2^n are determined by their n low bits. */
  lemma {:induction false} BitsDetermine(a: nat, b: nat, n: nat)
    requires a < Pow2(n) && b < Pow2(n)
    requires forall k | 0 <= k < n :: Bit(a, k) == Bit(b, k)
    ensures a == b
    decreases n
  {
    if n > 0 {
      assert Bit(a, 0) == Bit(b, 0);
      forall k | 0 <= k < n - 1 ensures Bit(a / 2, k) == Bit(b / 2, k) {
        assert Bit(a, k + 1) == Bit(b, k + 1);
      }
      BitsDetermine(a / 2, b / 2, n - 1);
    }
  }

  /** Bit i of a packed byte string, least significant bit of byte 0 first. */
  function BitAt(raw: seq<u8>, i: nat): bool
    requires i < 8 * |raw|
  {
    Bit(raw[i / 8], i % 8)
  }

  /** raw holds exactly vals, least significant bit first, padded with zero bits. */
  ghost predicate Packed(raw: seq<u8>, vals: seq<bool>) {
    && |raw| == (|vals| + 7) / 8
    && forall i | 0 <= i < 8 * |raw| :: BitAt(raw, i) == (i < |vals| && vals[i])
  }

  lemma PackedUnique(r1: seq<u8>, r2: seq<u8>, vals: seq<bool>)
    requires Packed(r1, vals) && Packed(r2, vals)
    ensures r1 == r2
  {
    forall j | 0 <= j < |r1| ensures r1[j] == r2[j] {
      forall k | 0 <= k < 8 ensures Bit(r1[j], k) == Bit(r2[j], k) {
        assert (8 * j + k) / 8 == j && (8 * j + k) % 8 == k;
        assert BitAt(r1, 8 * j + k) == BitAt(r2, 8 * j + k);
      }
      Pow2Eight();
      BitsDetermine(r1[j], r2[j], 8);
    }
  }

  /** raw holds exactly vals, two bytes each, most significant byte first. */
  ghost predicate BigEndian(raw: seq<u8>, vals: seq<u16>) {
    && |raw| == 2 * |vals|
    && forall i | 0 <= i < |vals| :: GetBE16(raw, 2 * i) == vals[i]
  }

  lemma BigEndianUnique(r1: seq<u8>, r2: seq<u8>, vals: seq<u16>)
    requires BigEndian(r1, vals) && BigEndian(r2, vals)
    ensures r1 == r2
  {
    forall j | 0 <= j < |r1| ensures r1[j] == r2[j] {
      assert GetBE16(r1, 2 * (j / 2)) == GetBE16(r2, 2 * (j / 2));
    }
  }

  /** The value of up to eight bits, least significant first. */
  function FromBits(bits: seq<bool>): nat {
    if bits == [] then 0 else (if bits[0] then 1 else 0) + 2 * FromBits(bits[1..])
  }

  lemma {:induction false} FromBitsBit(bits: seq<bool>, k: nat)
    ensures Bit(FromBits(bits), k) == (k < |bits| && bits[k])
  {
    if bits == [] {
      ZeroBit(k);
    } else if k > 0 {
      FromBitsBit(bits[1..], k - 1);
    }
  }

  lemma {:induction false} FromBitsRange(bits: seq<bool>)
    ensures FromBits(bits) < Pow2(|bits|)
  {
    if bits != [] { FromBitsRange(bits[1..]); }
  }

  /** Byte j of the packing of vals. */
  function PackByte(vals: seq<bool>, j: nat): u8
    requires 8 * j < |vals|
  {
    var bits := vals[8 * j..if 8 * j + 8 <= |vals| then 8 * j + 8 else |vals|];
    FromBitsRange(bits);
    Pow2Mono(|bits|, 8);
    Pow2Eight();
    FromBits(bits)
  }

  lemma {:induction false} Pow2Mono(m: nat, n: nat)
    requires m <= n
    ensures Pow2(m) <= Pow2(n)
    decreases n
  {
    if m < n { Pow2Mono(m, n - 1); }
  }

  /** The packed form as a function; `Packed` characterises it. */
  function Pack(vals: seq<bool>): seq<u8> {
    seq((|vals| + 7) / 8, j requires 0 <= j < (|vals| + 7) / 8 => PackByte(vals, j))
  }

  lemma PackIsPacked(vals: seq<bool>)
    ensures Packed(Pack(vals), vals)
  {
    var raw := Pack(vals);
    forall i | 0 <= i < 8 * |raw| ensures BitAt(raw, i) == (i < |vals| && vals[i]) {
      var j := i / 8;
      FromBitsBit(vals[8 * j..if 8 * j + 8 <= |vals| then 8 * j + 8 else |vals|], i % 8);
    }
  }

  function RegisterBytes(vals: seq<u16>): seq<u8> {
    seq(2 * |vals|, j requires 0 <= j < 2 * |vals| =>
      if j % 2 == 0 then vals[j / 2] / 256 else vals[j / 2] % 256)
  }

  lemma RegisterBytesBigEndian(vals: seq<u16>)
    ensures BigEndian(RegisterBytes(vals), vals)
  {
  }

  /** The bit-packing loop shared by the client and the server: buf[off..] is all
      zero and just long enough; afterwards it holds vals. */
  method PackBits(buf: array<u8>, off: nat, vals: seq<bool>)
    requires off + (|vals| + 7) / 8 == buf.Length
    requires forall j | off <= j < buf.Length :: buf[j] == 0
    modifies buf
    ensures buf[..off] == old(buf[..off])
    ensures Packed(buf[off..], vals)
  {
    forall m | 0 <= m < 8 * |buf[off..]| ensures !BitAt(buf[off..], m) {
      ZeroBit(m % 8);
    }
    for i := 0 to |vals|
      invariant buf[..off] == old(buf[..off])
      invariant forall m | 0 <= m < 8 * |buf[off..]| ::
          BitAt(buf[off..], m) == (m < i && vals[m])
    {
      if vals[i] {
        ghost var raw := buf[off..];
        buf[off + i / 8] := OrBit(buf[off + i / 8], i % 8);
        OrBitAt(raw, buf[off..], i);
      }
    }
  }

  lemma OrBitAt(raw: seq<u8>, raw': seq<u8>, i: nat)
    requires i < 8 * |raw|
    requires raw' == raw[i / 8 := OrBit(raw[i / 8], i % 8)]
    ensures forall m | 0 <= m < 8 * |raw'| :: BitAt(raw', m) == (m == i || BitAt(raw, m))
  {
    forall m | 0 <= m < 8 * |raw'| ensures BitAt(raw', m) == (m == i || BitAt(raw, m)) {
      SetBitBit(raw[i / 8], i % 8, m % 8);
    }
  }

  lemma {:induction false} ZeroBit(k: nat)
    ensures !Bit(0, k)
  {
    if k > 0 { ZeroBit(k - 1); }
  }

  /** The unpacking loop of the parsers: bit i of raw is `(raw[i/8] >> (i%8)) & 1`. */
  method UnpackBits(raw: seq<u8>, qty: nat) returns (vals: seq<bool>)
    requires |raw| == (qty + 7) / 8
    ensures |vals| == qty
    ensures forall i | 0 <= i < qty :: vals[i] == BitAt(raw, i)
    ensures forall v: seq<bool> | Packed(raw, v) && |v| == qty :: vals == v
  {
    var out := new bool[qty];
    for i := 0 to qty
      invariant forall j | 0 <= j < i :: out[j] == BitAt(raw, j)
    {
      out[i] := Bit(raw[i / 8], i % 8);
    }
    vals := out[..];
    forall v: seq<bool> | Packed(raw, v) && |v| == qty ensures vals == v {
      forall i | 0 <= i < qty ensures vals[i] == v[i] {
        assert vals[i] == BitAt(raw, i);
      }
    }
  }

  /** The register-packing loop (`binary.BigEndian.PutUint16` per value). */
  method PackRegisters(buf: array<u8>, off: nat, vals: seq<u16>)
    requires off + 2 * |vals| == buf.Length
    modifies buf
    ensures buf[..off] == old(buf[..off])
    ensures BigEndian(buf[off..], vals)
  {
    for i := 0 to |vals|
      invariant buf[..off] == old(buf[..off])
      invariant forall j | 0 <= j < i ::
          buf[off + 2 * j] == vals[j] / 256 && buf[off + 2 * j + 1] == vals[j] % 256
    {
      buf[off + 2 * i] := vals[i] / 256;
      buf[off + 2 * i + 1] := vals[i] % 256;
    }
  }

  /** The register-unpacking loop (`binary.BigEndian.Uint16` per value). */
  method UnpackRegisters(raw: seq<u8>, qty: nat) returns (vals: seq<u16>)
    requires |raw| == 2 * qty
    ensures BigEndian(raw, vals)
    ensures forall v: seq<u16> | BigEndian(raw, v) :: vals == v
  {
    var out := new u16[qty];
    for i := 0 to qty
      invariant forall j | 0 <= j < i :: out[j] == GetBE16(raw, 2 * j)
    {
      out[i] := GetBE16(raw, 2 * i);
    }
    vals := out[..];
    forall v: seq<u16> | BigEndian(raw, v) ensures vals == v {
      forall i | 0 <= i < qty ensures vals[i] == v[i] {
        assert vals[i] == GetBE16(raw, 2 * i);
      }
    }
  }
}
