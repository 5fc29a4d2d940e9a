/**
 * The check value of the CRC: what every implementation of the CRC-32 of RFC 1952 gives for the nine digits
 * "123456789". It fixes the polynomial, the bit order, the initial register and the final complement.
 */
module Crc32Check {
  import opened Bytes
  import opened Crc32
  import opened TerrainTileCodec

  predicate Steps(w0: bv32, w1: bv32, w2: bv32, w3: bv32, w4: bv32, w5: bv32, w6: bv32, w7: bv32, w8: bv32) {
    && Step(w0) == w1 && Step(w1) == w2 && Step(w2) == w3 && Step(w3) == w4
    && Step(w4) == w5 && Step(w5) == w6 && Step(w6) == w7 && Step(w7) == w8
  }

  lemma EightIs(w0: bv32, w1: bv32, w2: bv32, w3: bv32, w4: bv32, w5: bv32, w6: bv32, w7: bv32, w8: bv32)
    requires Steps(w0, w1, w2, w3, w4, w5, w6, w7, w8)
    ensures Eight(w0) == w8
  {
    assert Iterate(Step, w0, 2) == w2;
    assert Iterate(Step, w0, 4) == w4;
    assert Iterate(Step, w0, 6) == w6;
  }

  lemma BitStep(b: nat, k: nat)
    ensures Bit(b, k + 1) == Bit(b / 2, k)
  {
  }

  /** The bits of the digit `d`, whose code is 48 + d. */
  lemma DigitBits(b: byte, d: nat)
    requires d < 16 && b == 48 + d
    ensures Bit(b, 0) == Bit(d, 0) && Bit(b, 1) == Bit(d / 2, 0) && Bit(b, 2) == Bit(d / 4, 0) && Bit(b, 3) == Bit(d / 8, 0)
    ensures Bit(b, 4) && Bit(b, 5) && !Bit(b, 6) && !Bit(b, 7)
  {
    var b1, b2, b3, b4, b5 := b / 2, b / 4, b / 8, b / 16, b / 32;
    assert b1 / 2 == b2 && b2 / 2 == b3 && b3 / 2 == b4 && b4 / 2 == b5 && b5 / 2 == 0 && b4 == 3 && b5 == 1;
    assert b1 == 24 + d / 2 && b2 == 12 + d / 4 && b3 == 6 + d / 8;
    assert Bit(b, 1) == Bit(b1, 0);
    assert Bit(b, 2) == Bit(b1, 1) == Bit(b2, 0);
    assert Bit(b, 3) == Bit(b1, 2) == Bit(b2, 1) == Bit(b3, 0);
    assert Bit(b4, 0) && Bit(b5, 0) && !Bit(0, 0) && !Bit(0, 1);
    assert Bit(b4, 1) == Bit(b5, 0) && Bit(b4, 2) == Bit(b5, 1) == Bit(0, 0) && Bit(b4, 3) == Bit(b5, 2) == Bit(0, 1);
    LaterBit(b, 0);
    LaterBit(b, 1);
    LaterBit(b, 2);
    LaterBit(b, 3);
  }

  lemma LaterBit(b: nat, k: nat)
    ensures Bit(b, k + 4) == Bit(b / 16, k)
  {
    BitStep(b, k + 3);
    BitStep(b / 2, k + 2);
    BitStep(b / 4, k + 1);
    BitStep(b / 8, k);
    assert b / 2 / 2 == b / 4 && b / 4 / 2 == b / 8 && b / 8 / 2 == b / 16;
  }

  /** A digit in the low bits of a word. */
  function DigitWord(b0: bool, b1: bool, b2: bool, b3: bool): bv32 {
    0x30 | Mask(b0, 1) | Mask(b1, 2) | Mask(b2, 4) | Mask(b3, 8)
  }

  lemma DigitIs(b: byte, b0: bool, b1: bool, b2: bool, b3: bool)
    requires Bit(b, 0) == b0 && Bit(b, 1) == b1 && Bit(b, 2) == b2 && Bit(b, 3) == b3
    requires Bit(b, 4) && Bit(b, 5) && !Bit(b, 6) && !Bit(b, 7)
    ensures Word(b) == DigitWord(b0, b1, b2, b3)
  {
  }

  /** One byte: the register before, the byte in the low bits, and the register after each of the eight bits. */
  lemma NextRegister(data: seq<byte>, n: nat, crc: bv32, word: bv32, w0: bv32, w1: bv32, w2: bv32, w3: bv32, w4: bv32, w5: bv32, w6: bv32, w7: bv32, w8: bv32)
    requires n < |data| && Register(INITIAL, data[..n]) == crc && Word(data[n]) == word && Xor(crc, word) == w0
    requires Steps(w0, w1, w2, w3, w4, w5, w6, w7, w8)
    ensures Register(INITIAL, data[..n + 1]) == w8
  {
    EightIs(w0, w1, w2, w3, w4, w5, w6, w7, w8);
    assert data[..n + 1][..n] == data[..n];
  }

  lemma Digit(data: seq<byte>, n: nat, d: nat, b0: bool, b1: bool, b2: bool, b3: bool)
    requires n < |data| && d < 16 && data[n] == 48 + d
    requires b0 == (d % 2 == 1) && b1 == (d / 2 % 2 == 1) && b2 == (d / 4 % 2 == 1) && b3 == (d / 8 % 2 == 1)
    ensures Word(data[n]) == DigitWord(b0, b1, b2, b3)
  {
    DigitBits(data[n], d);
    DigitIs(data[n], b0, b1, b2, b3);
  }

  /** The CRC of the digits 1 to 9 is 0xcbf43926. */
  lemma CheckValue(data: seq<byte>)
    requires |data| == 9 && forall i :: 0 <= i < 9 ==> data[i] == 49 + i
    ensures Crc(data) == 0xcbf43926
  {
    assert data[..0] == [] && data[..9] == data;
    Digit(data, 0, 1, true, false, false, false);
    NextRegister(data, 0, 0xffffffff, 0x00000031,
                 0xffffffce, 0x7fffffe7, 0xd2477cd3, 0x849b3d49, 0xaff51d84, 0x57fa8ec2, 0x2bfd4761, 0xf8462090, 0x7c231048);
    Digit(data, 1, 2, false, true, false, false);
    NextRegister(data, 1, 0x7c231048, 0x00000032,
                 0x7c23107a, 0x3e11883d, 0xf2b0473e, 0x7958239f, 0xd11492ef, 0x8532ca57, 0xaf21e60b, 0xba287025, 0xb0acbb32);
    Digit(data, 2, 3, true, true, false, false);
    NextRegister(data, 2, 0xb0acbb32, 0x00000033,
                 0xb0acbb01, 0xb5eedea0, 0x5af76f50, 0x2d7bb7a8, 0x16bddbd4, 0x0b5eedea, 0x05af76f5, 0xef6f385a, 0x77b79c2d);
    Digit(data, 3, 4, false, false, true, false);
    NextRegister(data, 3, 0x77b79c2d, 0x00000034,
                 0x77b79c19, 0xd6634d2c, 0x6b31a696, 0x3598d34b, 0xf774ea85, 0x9602f662, 0x4b017b31, 0xc8383eb8, 0x641c1f5c);
    Digit(data, 4, 5, true, false, true, false);
    NextRegister(data, 4, 0x641c1f5c, 0x00000035,
                 0x641c1f69, 0xdfb68c94, 0x6fdb464a, 0x37eda325, 0xf64e52b2, 0x7b272959, 0xd02b178c, 0x68158bc6, 0x340ac5e3);
    Digit(data, 5, 6, false, true, true, false);
    NextRegister(data, 5, 0x340ac5e3, 0x00000036,
                 0x340ac5d5, 0xf7bde1ca, 0x7bdef0e5, 0xd057fb52, 0x682bfda9, 0xd9ad7df4, 0x6cd6befa, 0x366b5f7d, 0xf68d2c9e);
    Digit(data, 6, 7, true, true, true, false);
    NextRegister(data, 6, 0xf68d2c9e, 0x00000037,
                 0xf68d2ca9, 0x96fe1574, 0x4b7f0aba, 0x25bf855d, 0xff67418e, 0x7fb3a0c7, 0xd2615343, 0x84882a81, 0xaffc9660);
    Digit(data, 7, 8, false, false, false, true);
    NextRegister(data, 7, 0xaffc9660, 0x00000038,
                 0xaffc9658, 0x57fe4b2c, 0x2bff2596, 0x15ff92cb, 0xe7474a45, 0x9e1b2602, 0x4f0d9301, 0xca3e4aa0, 0x651f2550);
    Digit(data, 8, 9, true, false, false, true);
    NextRegister(data, 8, 0x651f2550, 0x00000039,
                 0x651f2569, 0xdf371194, 0x6f9b88ca, 0x37cdc465, 0xf65e6112, 0x7b2f3089, 0xd02f1b64, 0x68178db2, 0x340bc6d9);
  }

  lemma ByteIs(word: bv32, b: byte, b0: bool, b1: bool, b2: bool, b3: bool, b4: bool, b5: bool, b6: bool, b7: bool)
    requires b0 == On(word, 1) && b1 == On(word, 2) && b2 == On(word, 4) && b3 == On(word, 8)
    requires b4 == On(word, 16) && b5 == On(word, 32) && b6 == On(word, 64) && b7 == On(word, 128)
    requires b == ByteFrom(b0, b1, b2, b3, b4, b5, b6, b7)
    ensures ByteOf(word) == b
  {
  }

  /** The header stores that CRC low byte first. */
  lemma StoredCheckValue(crc: bv32)
    requires crc == 0xcbf43926
    ensures CrcField(crc) == [0x26, 0x39, 0xf4, 0xcb]
  {
    ByteIs(crc, 0x26, false, true, true, false, false, true, false, false);
    ByteIs(crc >> 8, 0x39, true, false, false, true, true, true, false, false);
    ByteIs(crc >> 16, 0xf4, false, false, true, false, true, true, true, true);
    ByteIs(crc >> 24, 0xcb, true, true, false, true, false, false, true, true);
  }
}
