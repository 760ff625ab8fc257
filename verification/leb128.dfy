// LEB128 integers: the bounds-checked decoders of the validator, the unrolled decoders of the interpreter's
// hot path, and the encoding both of them invert (section 5.2.2 of the WebAssembly Core Specification 2.0).
//
// Machine words are integers here, so `r |= x << s` is written as an addition: every accumulation below adds bits
// above all bits already present. A result that the source truncates to 32 or 64 bits is reduced explicitly.
module Leb128 {

  type Byte = b: int | 0 <= b < 256

  const TWO_31: int := 0x8000_0000
  const TWO_32: int := 0x1_0000_0000
  const TWO_63: int := 0x8000_0000_0000_0000
  const TWO_64: int := 0x1_0000_0000_0000_0000

  /** Reads a 32-bit pattern as a two's-complement integer. */
  function Wrap32(v: int): (r: int)
    ensures -TWO_31 <= r < TWO_31
  {
    var m := v % TWO_32;
    if m < TWO_31 then m else m - TWO_32
  }

  /** Reads a 64-bit pattern as a two's-complement integer. */
  function Wrap64(v: int): (r: int)
    ensures -TWO_63 <= r < TWO_63
  {
    var m := v % TWO_64;
    if m < TWO_63 then m else m - TWO_64
  }

  // ----- what the bytes mean -----

  /** x * 128^k, by repeated multiplication. */
  function Shifted(x: int, k: nat): int
  {
    if k == 0 then x else 128 * Shifted(x, k - 1)
  }

  /** 128^k */
  function Pow128(k: nat): (r: int)
    ensures r > 0
  {
    if k == 0 then 1 else 128 * Pow128(k - 1)
  }

  /** The number spelled by the low seven bits of the `k` bytes at `p`, least significant group first. */
  function PayloadAt(code: seq<Byte>, p: nat, k: nat): int
    requires p + k <= |code|
  {
    if k == 0 then 0 else PayloadAt(code, p, k - 1) + Shifted(code[p + k - 1] % 128, k - 1)
  }

  /** The same with the top group read as a signed seven-bit number. */
  function SignedAt(code: seq<Byte>, p: nat, k: nat): int
    requires p + k <= |code|
  {
    if k > 0 && code[p + k - 1] % 128 >= 64 then PayloadAt(code, p, k) - Pow128(k) else PayloadAt(code, p, k)
  }

  function U32At(code: seq<Byte>, p: nat, k: nat): (r: nat)
    requires p + k <= |code|
    ensures r < TWO_32
  {
    PayloadAt(code, p, k) % TWO_32
  }

  function S32At(code: seq<Byte>, p: nat, k: nat): (r: int)
    requires p + k <= |code|
    ensures -TWO_31 <= r < TWO_31
  {
    Wrap32(SignedAt(code, p, k))
  }

  function S64At(code: seq<Byte>, p: nat, k: nat): (r: int)
    requires p + k <= |code|
    ensures -TWO_63 <= r < TWO_63
  {
    Wrap64(SignedAt(code, p, k))
  }

  /** An encoding of at most `max` bytes: continuation bit on every byte but the last. */
  predicate Legal(enc: seq<Byte>, max: nat)
  {
    0 < |enc| <= max && enc[|enc| - 1] < 128 && forall i :: 0 <= i < |enc| - 1 ==> enc[i] >= 128
  }

  /** The bytes of `bytes` stand at `p`. */
  predicate HasBytes(code: seq<Byte>, p: nat, bytes: seq<Byte>)
    ensures HasBytes(code, p, bytes) ==> p + |bytes| <= |code|
    decreases |bytes|
  {
    if bytes == [] then p <= |code|
    else p < |code| && code[p] == bytes[0] && HasBytes(code, p + 1, bytes[1..])
  }

  lemma {:induction false} ByteOf(code: seq<Byte>, p: nat, bytes: seq<Byte>, i: nat)
    requires HasBytes(code, p, bytes) && i < |bytes|
    ensures code[p + i] == bytes[i]
    decreases i
  {
    if i > 0 { ByteOf(code, p + 1, bytes[1..], i - 1); }
  }

  /** The meaning of an encoding does not depend on where it stands. */
  lemma {:induction false} PayloadOfSlice(code: seq<Byte>, p: nat, enc: seq<Byte>, k: nat)
    requires HasBytes(code, p, enc) && k <= |enc|
    ensures PayloadAt(code, p, k) == PayloadAt(enc, 0, k)
    ensures SignedAt(code, p, k) == SignedAt(enc, 0, k)
  {
    if k > 0 {
      PayloadOfSlice(code, p, enc, k - 1);
      ByteOf(code, p, enc, k - 1);
    }
  }

  // ----- how far a decoder reads -----

  /** Bytes consumed from `p`: up to and including the first byte without continuation bit, at most `max`, never past `limit`. */
  function Taken(code: seq<Byte>, p: nat, limit: nat, max: nat): (k: nat)
    requires p <= limit <= |code|
    ensures k <= max && p + k <= limit
    decreases max
  {
    if p == limit || max == 0 then 0
    else if code[p] < 128 then 1
    else 1 + Taken(code, p + 1, limit, max - 1)
  }

  /** A terminator or `max` bytes lie before `limit`. */
  predicate Available(code: seq<Byte>, p: nat, limit: nat, max: nat)
    requires p <= limit <= |code|
  {
    var k := Taken(code, p, limit, max);
    k == max || (k > 0 && code[p + k - 1] < 128)
  }

  /** The lengths a decoder can stop at, one test per byte. */
  lemma {:induction false} TakenUnrolled(code: seq<Byte>, p: nat, max: nat)
    requires p <= |code| && max > 0 && Available(code, p, |code|, max)
    ensures var k := Taken(code, p, |code|, max);
            && 0 < k <= max && p + k <= |code|
            && (forall i :: p <= i < p + k - 1 ==> code[i] >= 128)
            && (k < max ==> code[p + k - 1] < 128)
    decreases max
  {
    if p < |code| && code[p] >= 128 && max > 1 {
      var k := Taken(code, p + 1, |code|, max - 1);
      assert k > 0 ==> code[p + 1 + k - 1] == code[p + (1 + k) - 1];
      TakenUnrolled(code, p + 1, max - 1);
    }
  }

  /** A legal encoding at `p` is exactly what a decoder with that maximum consumes. */
  lemma {:induction false} TakenLegal(code: seq<Byte>, p: nat, limit: nat, max: nat, enc: seq<Byte>)
    requires Legal(enc, max) && HasBytes(code, p, enc) && p + |enc| <= limit <= |code|
    ensures Taken(code, p, limit, max) == |enc| && Available(code, p, limit, max)
    decreases |enc|
  {
    if |enc| > 1 {
      TakenLegal(code, p + 1, limit, max - 1, enc[1..]);
      var k := |enc|;
      ByteOf(code, p, enc, k - 1);
    }
  }

  /** Once a terminator or the maximum is in reach, bytes after `limit` do not matter: both kinds of decoder agree. */
  lemma {:induction false} TakenIgnoresRest(code: seq<Byte>, p: nat, limit: nat, max: nat)
    requires p <= limit <= |code| && Available(code, p, limit, max)
    ensures Taken(code, p, |code|, max) == Taken(code, p, limit, max)
    ensures Available(code, p, |code|, max)
    decreases max
  {
    if p < limit && max > 0 && code[p] >= 128 {
      var k := Taken(code, p + 1, limit, max - 1);
      assert Taken(code, p, limit, max) == 1 + k;
      assert k > 0 ==> code[p + 1 + k - 1] == code[p + (1 + k) - 1];
      TakenIgnoresRest(code, p + 1, limit, max - 1);
    }
  }

  // ----- words -----

  /** Adds the group of byte `b` at bit position `shift` to a 32-bit accumulator. */
  function Or32(acc: nat, b: Byte, shift: nat): nat
  {
    (acc + Shifted(b % 128, shift / 7)) % TWO_32
  }

  /** Adds the group of byte `b` at bit position `shift` to a 64-bit accumulator. */
  function Or64(acc: nat, b: Byte, shift: nat): nat
  {
    (acc + Shifted(b % 128, shift / 7)) % TWO_64
  }

  lemma AddMod32(a: int, s: int)
    ensures (a % TWO_32 + s) % TWO_32 == (a + s) % TWO_32
  {
    assert a + s == (a % TWO_32 + s) + TWO_32 * (a / TWO_32);
  }

  lemma AddMod64(a: int, s: int)
    ensures (a % TWO_64 + s) % TWO_64 == (a + s) % TWO_64
  {
    assert a + s == (a % TWO_64 + s) + TWO_64 * (a / TWO_64);
  }

  lemma Or32Step(code: seq<Byte>, p: nat, k: nat)
    requires p + k < |code|
    ensures Or32(PayloadAt(code, p, k) % TWO_32, code[p + k], 7 * k) == PayloadAt(code, p, k + 1) % TWO_32
  {
    assert 7 * k / 7 == k;
    AddMod32(PayloadAt(code, p, k), Shifted(code[p + k] % 128, k));
  }

  lemma Or64Step(code: seq<Byte>, p: nat, k: nat)
    requires p + k < |code|
    ensures Or64(PayloadAt(code, p, k) % TWO_64, code[p + k], 7 * k) == PayloadAt(code, p, k + 1) % TWO_64
  {
    assert 7 * k / 7 == k;
    AddMod64(PayloadAt(code, p, k), Shifted(code[p + k] % 128, k));
  }

  lemma {:induction false} ShiftedBound(x: int, k: nat)
    requires 0 <= x < 128
    ensures 0 <= Shifted(x, k) <= Pow128(k + 1) - Pow128(k)
    ensures x >= 64 ==> 2 * Shifted(x, k) >= Pow128(k + 1)
    ensures x < 64 ==> 2 * Shifted(x, k) <= Pow128(k + 1) - 2 * Pow128(k)
  {
    if k > 0 { ShiftedBound(x, k - 1); }
  }

  lemma {:induction false} PayloadBound(code: seq<Byte>, p: nat, k: nat)
    requires p + k <= |code|
    ensures 0 <= PayloadAt(code, p, k) < Pow128(k)
    ensures -Pow128(k) <= 2 * SignedAt(code, p, k) < Pow128(k) || k == 0
  {
    if k > 0 {
      PayloadBound(code, p, k - 1);
      ShiftedBound(code[p + k - 1] % 128, k - 1);
    }
  }

  lemma Powers()
    ensures Pow128(1) == 0x80 && Pow128(4) == 0x1000_0000 && Pow128(5) == 0x8_0000_0000
    ensures Pow128(9) == TWO_63 && Pow128(10) == 128 * TWO_63
  {
    assert Pow128(2) == 128 * Pow128(1);
    assert Pow128(4) == 128 * Pow128(3);
    assert Pow128(6) == 128 * Pow128(5);
    assert Pow128(8) == 128 * Pow128(7);
    assert Pow128(10) == 128 * Pow128(9);
  }

  lemma {:induction false} PowMonotone(i: nat, j: nat)
    requires i <= j
    ensures Pow128(i) <= Pow128(j)
    decreases j
  {
    if i < j { PowMonotone(i, j - 1); }
  }

  /** The sign of an encoding is bit 6 of its last byte. */
  lemma SignOf(code: seq<Byte>, p: nat, k: nat)
    requires 0 < k && p + k <= |code| && code[p + k - 1] < 128
    ensures S64At(code, p, k) == Wrap64(if code[p + k - 1] >= 64 then PayloadAt(code, p, k) - Pow128(k) else PayloadAt(code, p, k))
    ensures S32At(code, p, k) == Wrap32(if code[p + k - 1] >= 64 then PayloadAt(code, p, k) - Pow128(k) else PayloadAt(code, p, k))
  {
  }

  /** Fewer than five groups stay below the sign bit of a 32-bit word. */
  lemma Finish32(code: seq<Byte>, p: nat, k: nat)
    requires 0 < k < 5 && p + k <= |code|
    ensures 0 <= PayloadAt(code, p, k) < TWO_31
    ensures U32At(code, p, k) == PayloadAt(code, p, k)
    ensures k == 1 ==> PayloadAt(code, p, 1) == code[p] % 128
    ensures Pow128(1) == 0x80
  {
    Powers();
    PayloadBound(code, p, k);
    PowMonotone(k, 4);
    FirstGroup(code, p);
  }

  lemma FirstGroup(code: seq<Byte>, p: nat)
    requires p < |code|
    ensures PayloadAt(code, p, 1) == code[p] % 128
  {
    assert PayloadAt(code, p, 1) == PayloadAt(code, p, 0) + Shifted(code[p] % 128, 0);
  }

  /** Fewer than ten groups stay below the sign bit of a 64-bit word. */
  lemma Finish64(code: seq<Byte>, p: nat, k: nat)
    requires 0 < k < 10 && p + k <= |code|
    ensures 0 <= PayloadAt(code, p, k) < TWO_63
    ensures k == 1 ==> PayloadAt(code, p, 1) == code[p] % 128
    ensures Pow128(1) == 0x80
  {
    Powers();
    PayloadBound(code, p, k);
    PowMonotone(k, 9);
    FirstGroup(code, p);
  }

  lemma WrapModulo32(v: int)
    ensures Wrap32(v % TWO_32) == Wrap32(v) == Wrap32(v - 8 * TWO_32)
  {
    assert (v - 8 * TWO_32) % TWO_32 == v % TWO_32;
  }

  lemma WrapModulo64(v: int)
    ensures Wrap64(v % TWO_64) == Wrap64(v) == Wrap64(v - 64 * TWO_64)
  {
    assert (v - 64 * TWO_64) % TWO_64 == v % TWO_64;
  }

  /** Sign extension is needed exactly when the groups end inside the word. */
  lemma Extend32(code: seq<Byte>, p: nat, k: nat)
    requires 0 < k <= 5 && p + k <= |code|
    ensures var m := PayloadAt(code, p, k) % TWO_32;
            S32At(code, p, k) == Wrap32(if 7 * k < 32 && code[p + k - 1] % 128 >= 64 then m - Pow128(k) else m)
  {
    if k < 5 {
      Finish32(code, p, k);
      hide Wrap32, PayloadAt;
      assert PayloadAt(code, p, k) % TWO_32 == PayloadAt(code, p, k);
    } else {
      Powers();
      hide PayloadAt;
      WrapModulo32(PayloadAt(code, p, 5));
      hide Wrap32;
    }
  }

  lemma Extend64(code: seq<Byte>, p: nat, k: nat)
    requires 0 < k <= 10 && p + k <= |code|
    ensures var m := PayloadAt(code, p, k) % TWO_64;
            S64At(code, p, k) == Wrap64(if 7 * k < 64 && code[p + k - 1] % 128 >= 64 then m - Pow128(k) else m)
  {
    if k < 10 {
      Finish64(code, p, k);
      hide Wrap64, PayloadAt;
      assert PayloadAt(code, p, k) % TWO_64 == PayloadAt(code, p, k);
    } else {
      Powers();
      hide PayloadAt;
      WrapModulo64(PayloadAt(code, p, 10));
      hide Wrap64;
    }
  }

  lemma Weights(x: int)
    ensures Shifted(x, 4) == 0x1000_0000 * x && Shifted(x, 9) == TWO_63 * x
  {
    assert Shifted(x, 2) == 128 * Shifted(x, 1);
    assert Shifted(x, 4) == 128 * Shifted(x, 3);
    assert Shifted(x, 6) == 128 * Shifted(x, 5);
    assert Shifted(x, 8) == 128 * Shifted(x, 7);
  }

  /** Bits shifted out of a 32-bit word leave no trace. */
  lemma HighBits32(low: int, b: int)
    requires 0 <= low < 0x1000_0000 && 0 <= b
    ensures (low + 0x1000_0000 * b) % TWO_32 == low + 0x1000_0000 * (b % 16)
  {
    assert low + 0x1000_0000 * b == (low + 0x1000_0000 * (b % 16)) + TWO_32 * (b / 16);
  }

  lemma HighBits64(low: int, b: int)
    requires 0 <= low < TWO_63 && 0 <= b
    ensures (low + TWO_63 * b) % TWO_64 == low + TWO_63 * (b % 2)
  {
    assert low + TWO_63 * b == (low + TWO_63 * (b % 2)) + TWO_64 * (b / 2);
  }

  lemma LowBits(b: int, m: nat)
    requires m == 2 || m == 16
    ensures b % 128 % m == b % m
  {
  }

  /** Only four bits of a fifth byte fit a 32-bit word. */
  lemma FifthByte(low: int, b: Byte)
    requires 0 <= low < 0x1000_0000
    ensures (low + Shifted(b % 128, 4)) % TWO_32 == low + Shifted(b % 16, 4)
  {
    hide Shifted;
    Weights(b % 16);
    Weights(b % 128);
    LowBits(b, 16);
    HighBits32(low, b % 128);
  }

  /** Only one bit of a tenth byte fits a 64-bit word. */
  lemma TenthByte(low: int, b: Byte)
    requires 0 <= low < TWO_63
    ensures (low + Shifted(b % 128, 9)) % TWO_64 == low + Shifted(b % 2, 9)
  {
    hide Shifted;
    Weights(b % 2);
    Weights(b % 128);
    LowBits(b, 2);
    HighBits64(low, b % 128);
  }

  lemma Truncate32(code: seq<Byte>, p: nat, r: int)
    requires p + 5 <= |code| && r == PayloadAt(code, p, 4) + Shifted(code[p + 4] % 16, 4)
    ensures r == U32At(code, p, 5) && Wrap32(r) == S32At(code, p, 5)
  {
    hide Shifted, Wrap32, S32At;
    Powers();
    PayloadBound(code, p, 4);
    FifthByte(PayloadAt(code, p, 4), code[p + 4]);
    assert PayloadAt(code, p, 5) == PayloadAt(code, p, 4) + Shifted(code[p + 4] % 128, 4);
    Extend32(code, p, 5);
  }

  lemma Truncate64(code: seq<Byte>, p: nat, r: int)
    requires p + 10 <= |code| && r == PayloadAt(code, p, 9) + Shifted(code[p + 9] % 2, 9)
    ensures Wrap64(r) == S64At(code, p, 10)
  {
    hide Shifted, Wrap64, S64At;
    Powers();
    PayloadBound(code, p, 9);
    TenthByte(PayloadAt(code, p, 9), code[p + 9]);
    assert PayloadAt(code, p, 10) == PayloadAt(code, p, 9) + Shifted(code[p + 9] % 128, 9);
    Extend64(code, p, 10);
  }

  // ----- the bounds-checked decoders -----

  /** The loop of the 32-bit decoders: groups are added until a byte without continuation bit or the maximum length. */
  method Accumulate32(code: seq<Byte>, start: nat, limit: nat) returns (bits: nat, cursor: nat)
    requires start <= limit <= |code|
    ensures cursor == start + Taken(code, start, limit, 5)
    ensures bits == PayloadAt(code, start, cursor - start) % TWO_32
  {
    hide Or32, Shifted;
    cursor, bits := start, 0;
    var shift := 0;
    while cursor < limit
      invariant start <= cursor <= limit && shift == 7 * (cursor - start) && cursor - start < 5
      invariant Taken(code, start, limit, 5) == cursor - start + Taken(code, cursor, limit, 5 - (cursor - start))
      invariant bits == PayloadAt(code, start, cursor - start) % TWO_32
    {
      var raw := code[cursor];
      Or32Step(code, start, cursor - start);
      cursor := cursor + 1;
      if shift < 32 {
        bits := Or32(bits, raw, shift);
      }
      if raw < 0x80 { break; }
      shift := shift + 7;
      if shift >= 35 { break; }
    }
  }

  /** The loop of the 64-bit decoders: groups are added until a byte without continuation bit or the maximum length. */
  method Accumulate64(code: seq<Byte>, start: nat, limit: nat) returns (bits: nat, cursor: nat)
    requires start <= limit <= |code|
    ensures cursor == start + Taken(code, start, limit, 10)
    ensures bits == PayloadAt(code, start, cursor - start) % TWO_64
  {
    hide Or64, Shifted;
    cursor, bits := start, 0;
    var shift := 0;
    while cursor < limit
      invariant start <= cursor <= limit && shift == 7 * (cursor - start) && cursor - start < 10
      invariant Taken(code, start, limit, 10) == cursor - start + Taken(code, cursor, limit, 10 - (cursor - start))
      invariant bits == PayloadAt(code, start, cursor - start) % TWO_64
    {
      var raw := code[cursor];
      Or64Step(code, start, cursor - start);
      cursor := cursor + 1;
      if shift < 64 {
        bits := Or64(bits, raw, shift);
      }
      if raw < 0x80 { break; }
      shift := shift + 7;
      if shift >= 70 { break; }
    }
  }

  method DecodeVarUint32(code: seq<Byte>, start: nat, limit: nat) returns (value: nat, cursor: nat)
    requires start <= limit <= |code|
    ensures cursor == start + Taken(code, start, limit, 5)
    ensures value == U32At(code, start, cursor - start)
  {
    if start < limit && code[start] < 0x80 {
      Finish32(code, start, 1);
      return code[start], start + 1;
    }
    value, cursor := Accumulate32(code, start, limit);
  }

  method DecodeVarInt32(code: seq<Byte>, start: nat, limit: nat) returns (value: int, cursor: nat)
    requires start <= limit <= |code|
    ensures cursor == start + Taken(code, start, limit, 5)
    ensures value == S32At(code, start, cursor - start)
  {
    if start < limit && code[start] < 0x80 {
      var b: int := code[start];
      Finish32(code, start, 1);
      return Wrap32(if b >= 64 then b - 0x80 else b), start + 1;
    }
    var bits;
    bits, cursor := Accumulate32(code, start, limit);
    var raw: Byte := if cursor > start then code[cursor - 1] else 0;
    var shift := 7 * (cursor - start);
    value := Wrap32(if shift < 32 && raw % 128 >= 64 then bits - Pow128(cursor - start) else bits);
    if cursor > start {
      Extend32(code, start, cursor - start);
    }
  }

  method DecodeVarInt64(code: seq<Byte>, start: nat, limit: nat) returns (value: int, cursor: nat)
    requires start <= limit <= |code|
    ensures cursor == start + Taken(code, start, limit, 10)
    ensures value == S64At(code, start, cursor - start)
  {
    if start < limit && code[start] < 0x80 {
      var b: int := code[start];
      Finish64(code, start, 1);
      return Wrap64(if b >= 64 then b - 0x80 else b), start + 1;
    }
    var bits;
    bits, cursor := Accumulate64(code, start, limit);
    var raw: Byte := if cursor > start then code[cursor - 1] else 0;
    var shift := 7 * (cursor - start);
    value := Wrap64(if shift < 64 && raw % 128 >= 64 then bits - Pow128(cursor - start) else bits);
    if cursor > start {
      Extend64(code, start, cursor - start);
    }
  }

  // ----- the unrolled decoders -----
  //
  // No bounds check: the caller guarantees a terminator or the maximum length.
  // `(b & 0x7F) << 7*k` is Shifted(b % 128, k), and `~0 << 7*k` is -Pow128(k).

  method DecodeVarUint32Fast(code: seq<Byte>, p: nat) returns (value: nat, cursor: nat)
    requires p <= |code| && Available(code, p, |code|, 5)
    ensures cursor == p + Taken(code, p, |code|, 5)
    ensures value == U32At(code, p, cursor - p)
  {
    TakenUnrolled(code, p, 5);
    var b: int := code[p];
    if b < 0x80 { Finish32(code, p, 1); return b, p + 1; }
    var r: int := b % 128;
    FirstGroup(code, p);
    b := code[p + 1];
    r := r + Shifted(b % 128, 1);
    assert r == PayloadAt(code, p, 2);
    if b < 0x80 { Finish32(code, p, 2); return r, p + 2; }
    b := code[p + 2];
    r := r + Shifted(b % 128, 2);
    assert r == PayloadAt(code, p, 3);
    if b < 0x80 { Finish32(code, p, 3); return r, p + 3; }
    b := code[p + 3];
    r := r + Shifted(b % 128, 3);
    assert r == PayloadAt(code, p, 4);
    if b < 0x80 { Finish32(code, p, 4); return r, p + 4; }
    b := code[p + 4];
    r := r + Shifted(b % 16, 4);
    Truncate32(code, p, r);
    return r, p + 5;
  }

  method DecodeVarInt32Fast(code: seq<Byte>, p: nat) returns (value: int, cursor: nat)
    requires p <= |code| && Available(code, p, |code|, 5)
    ensures cursor == p + Taken(code, p, |code|, 5)
    ensures value == S32At(code, p, cursor - p)
  {
    TakenUnrolled(code, p, 5);
    var b: int := code[p];
    if b < 0x80 { Finish32(code, p, 1); return Wrap32(if b >= 64 then b - 0x80 else b), p + 1; }
    var r: int := b % 128;
    FirstGroup(code, p);
    b := code[p + 1];
    r := r + Shifted(b % 128, 1);
    assert r == PayloadAt(code, p, 2);
    if b < 0x80 { SignOf(code, p, 2); return Wrap32(if b >= 64 then r - Pow128(2) else r), p + 2; }
    b := code[p + 2];
    r := r + Shifted(b % 128, 2);
    assert r == PayloadAt(code, p, 3);
    if b < 0x80 { SignOf(code, p, 3); return Wrap32(if b >= 64 then r - Pow128(3) else r), p + 3; }
    b := code[p + 3];
    r := r + Shifted(b % 128, 3);
    assert r == PayloadAt(code, p, 4);
    if b < 0x80 { SignOf(code, p, 4); return Wrap32(if b >= 64 then r - Pow128(4) else r), p + 4; }
    b := code[p + 4];
    r := r + Shifted(b % 16, 4);
    Truncate32(code, p, r);
    return Wrap32(r), p + 5;
  }

  method DecodeVarInt64Fast(code: seq<Byte>, p: nat) returns (value: int, cursor: nat)
    requires p <= |code| && Available(code, p, |code|, 10)
    ensures cursor == p + Taken(code, p, |code|, 10)
    ensures value == S64At(code, p, cursor - p)
  {
    TakenUnrolled(code, p, 10);
    var b: int := code[p];
    if b < 0x80 { Finish64(code, p, 1); return Wrap64(if b >= 64 then b - 0x80 else b), p + 1; }
    var r: int := b % 128;
    FirstGroup(code, p);
    b := code[p + 1];
    r := r + Shifted(b % 128, 1);
    assert r == PayloadAt(code, p, 2);
    if b < 0x80 { SignOf(code, p, 2); return Wrap64(if b >= 64 then r - Pow128(2) else r), p + 2; }
    b := code[p + 2];
    r := r + Shifted(b % 128, 2);
    assert r == PayloadAt(code, p, 3);
    if b < 0x80 { SignOf(code, p, 3); return Wrap64(if b >= 64 then r - Pow128(3) else r), p + 3; }
    b := code[p + 3];
    r := r + Shifted(b % 128, 3);
    assert r == PayloadAt(code, p, 4);
    if b < 0x80 { SignOf(code, p, 4); return Wrap64(if b >= 64 then r - Pow128(4) else r), p + 4; }
    b := code[p + 4];
    r := r + Shifted(b % 128, 4);
    assert r == PayloadAt(code, p, 5);
    if b < 0x80 { SignOf(code, p, 5); return Wrap64(if b >= 64 then r - Pow128(5) else r), p + 5; }
    value, cursor := DecodeVarInt64FastTail(code, p, r);
  }

  /** The remaining five groups of an encoding whose first five bytes all continue. */
  method DecodeVarInt64FastTail(code: seq<Byte>, p: nat, low: int) returns (value: int, cursor: nat)
    requires p + 5 <= |code| && Available(code, p, |code|, 10)
    requires forall i :: p <= i < p + 5 ==> code[i] >= 128
    requires low == PayloadAt(code, p, 5)
    ensures cursor == p + Taken(code, p, |code|, 10)
    ensures value == S64At(code, p, cursor - p)
  {
    TakenUnrolled(code, p, 10);
    var b: int := code[p + 5];
    var r := low + Shifted(b % 128, 5);
    assert r == PayloadAt(code, p, 6);
    if b < 0x80 { SignOf(code, p, 6); return Wrap64(if b >= 64 then r - Pow128(6) else r), p + 6; }
    b := code[p + 6];
    r := r + Shifted(b % 128, 6);
    assert r == PayloadAt(code, p, 7);
    if b < 0x80 { SignOf(code, p, 7); return Wrap64(if b >= 64 then r - Pow128(7) else r), p + 7; }
    b := code[p + 7];
    r := r + Shifted(b % 128, 7);
    assert r == PayloadAt(code, p, 8);
    if b < 0x80 { SignOf(code, p, 8); return Wrap64(if b >= 64 then r - Pow128(8) else r), p + 8; }
    b := code[p + 8];
    r := r + Shifted(b % 128, 8);
    assert r == PayloadAt(code, p, 9);
    if b < 0x80 { SignOf(code, p, 9); return Wrap64(if b >= 64 then r - Pow128(9) else r), p + 9; }
    b := code[p + 9];
    r := r + Shifted(b % 2, 9);
    Truncate64(code, p, r);
    return Wrap64(r), p + 10;
  }

  // ----- skipping -----

  /** Skips one encoding of any length. */
  function SkipLeb(code: seq<Byte>, p: nat, limit: nat): (q: nat)
    requires p <= limit <= |code|
    ensures p <= q <= limit
    ensures p < limit ==> p < q
    decreases limit - p
  {
    if p == limit then p
    else if code[p] < 128 then p + 1
    else SkipLeb(code, p + 1, limit)
  }

  method SkipLebBytes(code: seq<Byte>, start: nat, limit: nat) returns (p: nat)
    requires start <= limit <= |code|
    ensures p == SkipLeb(code, start, limit)
  {
    p := start;
    while p < limit && code[p] >= 0x80
      invariant start <= p <= limit
      invariant SkipLeb(code, start, limit) == SkipLeb(code, p, limit)
    {
      p := p + 1;
    }
    if p < limit { p := p + 1; }
  }

  /** On a legal encoding the skipper and every decoder with that maximum stop at the same byte. */
  lemma {:induction false} SkipMatchesDecoders(code: seq<Byte>, p: nat, limit: nat, max: nat, enc: seq<Byte>)
    requires Legal(enc, max) && HasBytes(code, p, enc) && p + |enc| <= limit <= |code|
    ensures SkipLeb(code, p, limit) == p + |enc| == p + Taken(code, p, limit, max)
    decreases |enc|
  {
    TakenLegal(code, p, limit, max, enc);
    if |enc| > 1 {
      SkipMatchesDecoders(code, p + 1, limit, max - 1, enc[1..]);
    }
  }

  // ----- encoding -----

  function EncodeUnsigned(v: nat): (enc: seq<Byte>)
    ensures Legal(enc, |enc|)
    decreases v
  {
    if v < 128 then [v] else [v % 128 + 128] + EncodeUnsigned(v / 128)
  }

  function EncodeSigned(v: int): (enc: seq<Byte>)
    ensures Legal(enc, |enc|)
    decreases if v < 0 then -v else v
  {
    if -64 <= v < 64 then [v % 128] else [v % 128 + 128] + EncodeSigned(v / 128)
  }

  /** Peeling the first group off a payload. */
  lemma {:induction false} PayloadCons(b: Byte, rest: seq<Byte>, k: nat)
    requires k <= |rest|
    ensures PayloadAt([b] + rest, 0, k + 1) == b % 128 + 128 * PayloadAt(rest, 0, k)
  {
    var enc := [b] + rest;
    if k == 0 {
      assert PayloadAt(enc, 0, 1) == PayloadAt(enc, 0, 0) + Shifted(enc[0] % 128, 0);
    } else {
      PayloadCons(b, rest, k - 1);
      assert enc[k] == rest[k - 1];
    }
  }

  lemma {:induction false} DecodeInvertsUnsigned(v: nat, k: nat)
    requires v < Pow128(k) && k > 0
    ensures var enc := EncodeUnsigned(v); PayloadAt(enc, 0, |enc|) == v && |enc| <= k
    decreases v
  {
    if v < 128 {
      PayloadCons(v, [], 0);
      assert [v] + [] == [v];
    } else {
      assert k > 1 by { assert Pow128(1) == 128 * Pow128(0); }
      DecodeInvertsUnsigned(v / 128, k - 1);
      PayloadCons(v % 128 + 128, EncodeUnsigned(v / 128), |EncodeUnsigned(v / 128)|);
    }
  }

  lemma {:induction false} DecodeInvertsSigned(v: int, k: nat)
    requires k > 0 && -Pow128(k) <= 2 * v < Pow128(k)
    ensures var enc := EncodeSigned(v); SignedAt(enc, 0, |enc|) == v && |enc| <= k
    decreases if v < 0 then -v else v
  {
    hide SignedAt;
    assert Pow128(1) == 128 * Pow128(0);
    if -64 <= v < 64 {
      SignedByte(v);
    } else {
      assert k > 1 && Pow128(k) == 128 * Pow128(k - 1);
      EvenPower(k - 1);
      HalveRange(v, Pow128(k - 1));
      DecodeInvertsSigned(v / 128, k - 1);
      SignedCons(v % 128 + 128, EncodeSigned(v / 128));
    }
  }

  lemma SignedByte(v: int)
    requires -64 <= v < 64
    ensures SignedAt([v % 128], 0, 1) == v
  {
    PayloadCons(v % 128, [], 0);
    assert [v % 128] + [] == [v % 128];
  }

  lemma HalveRange(v: int, p: int)
    requires p > 0 && p % 2 == 0 && -128 * p <= 2 * v < 128 * p
    ensures -p <= 2 * (v / 128) < p
  {
  }

  lemma SignedCons(b: Byte, rest: seq<Byte>)
    requires rest != []
    ensures SignedAt([b] + rest, 0, |rest| + 1) == b % 128 + 128 * SignedAt(rest, 0, |rest|)
  {
    PayloadCons(b, rest, |rest|);
    hide PayloadAt;
    assert ([b] + rest)[|rest|] == rest[|rest| - 1];
  }

  lemma EvenPower(k: nat)
    requires k > 0
    ensures Pow128(k) % 2 == 0
  {
    assert Pow128(k) == 2 * (64 * Pow128(k - 1));
  }

  /** Every 32-bit unsigned integer has a legal encoding that decodes to itself. */
  lemma RoundTripU32(v: int)
    requires 0 <= v < TWO_32
    ensures var enc := EncodeUnsigned(v); Legal(enc, 5) && U32At(enc, 0, |enc|) == v
  {
    Powers();
    DecodeInvertsUnsigned(v, 5);
  }

  lemma RoundTripS32(v: int)
    requires -TWO_31 <= v < TWO_31
    ensures var enc := EncodeSigned(v); Legal(enc, 5) && S32At(enc, 0, |enc|) == v
  {
    Powers();
    DecodeInvertsSigned(v, 5);
  }

  lemma RoundTripS64(v: int)
    requires -TWO_63 <= v < TWO_63
    ensures var enc := EncodeSigned(v); Legal(enc, 10) && S64At(enc, 0, |enc|) == v
  {
    Powers();
    DecodeInvertsSigned(v, 10);
  }
}
