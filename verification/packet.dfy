/**
 * The 26-byte IMU packet shared by the Pico firmware and the host transports:
 *
 *   byte 0       start marker 0xAA
 *   bytes 1..12  three accelerometer floats
 *   bytes 13..24 three gyroscope floats
 *   byte 25      end marker 0x55
 *
 * There is no checksum: a window is a packet exactly when both markers are in
 * place.  Floats travel as their four in-memory bytes (binary32, little-endian
 * on both ends) and are treated here as opaque words.
 */
module Packet {

  type Byte = bv8

  const PacketStart: Byte := 0xAA
  const PacketEnd: Byte := 0x55
  const PacketSize: nat := 26
  const WordSize: nat := 4
  /** Bytes of one three-float array. */
  const TripleSize: nat := 12

  /** The four bytes of one binary32 value, least significant byte first. */
  type Word = w: seq<Byte> | |w| == 4 witness [0, 0, 0, 0]

  /** A three-float array as it lies in memory. */
  datatype WordVec = WordVec(x: Word, y: Word, z: Word)

  /** What one packet carries: the accelerometer and the gyroscope arrays. */
  datatype Payload = Payload(accel: WordVec, gyro: WordVec)

  /** The 12 bytes `memcpy` reads from or writes to a three-float array. */
  function Bytes(v: WordVec): (r: seq<Byte>)
    ensures |r| == TripleSize
  {
    v.x + v.y + v.z
  }

  /** Reads a three-float array back from 12 bytes. */
  function WordVecOf(b: seq<Byte>): (v: WordVec)
    requires |b| == TripleSize
    ensures Bytes(v) == b
  {
    var v := WordVec(b[0..4], b[4..8], b[8..12]);
    assert Bytes(v) == b;
    v
  }

  lemma WordVecOfBytes(v: WordVec)
    ensures WordVecOf(Bytes(v)) == v
  {
    var b := Bytes(v);
    assert b[0..4] == v.x && b[4..8] == v.y && b[8..12] == v.z;
  }

  /** A window of the stream that the decoders accept: right length, both markers. */
  predicate IsFrame(p: seq<Byte>) {
    |p| == PacketSize && p[0] == PacketStart && p[PacketSize - 1] == PacketEnd
  }

  /** A window the decoders accept. */
  type Frame = p: seq<Byte> | IsFrame(p) witness [PacketStart] + seq(24, _ => 0) + [PacketEnd]

  /** The packet the Pico main loop builds for one successful IMU read. */
  function Encode(p: Payload): (r: Frame)
    ensures r[1..13] == Bytes(p.accel) && r[13..25] == Bytes(p.gyro)
  {
    var r := [PacketStart] + Bytes(p.accel) + Bytes(p.gyro) + [PacketEnd];
    assert r[1..13] == Bytes(p.accel);
    assert r[13..25] == Bytes(p.gyro);
    r
  }

  /** The two float arrays a decoder copies out of an accepted window. */
  function DecodePayload(packet: seq<Byte>): Payload
    requires |packet| == PacketSize
  {
    Payload(WordVecOf(packet[1..13]), WordVecOf(packet[13..25]))
  }

  /** Decoding an encoded packet gives back the arrays that went in. */
  lemma DecodeEncode(p: Payload)
    ensures DecodePayload(Encode(p)) == p
  {
    WordVecOfBytes(p.accel);
    WordVecOfBytes(p.gyro);
  }

  /** Every window with both markers is the encoding of some payload: validity is
      decided by the markers alone, with no checksum. */
  lemma EncodeDecode(w: seq<Byte>)
    requires IsFrame(w)
    ensures Encode(DecodePayload(w)) == w
  {
    var e := Encode(DecodePayload(w));
    assert e[1..13] == w[1..13];
    assert e[13..25] == w[13..25];
    assert forall i | 0 <= i < PacketSize :: e[i] == w[i] by {
      forall i | 0 <= i < PacketSize ensures e[i] == w[i] {
        if 1 <= i < 13 {
          assert e[i] == e[1..13][i - 1];
          assert w[i] == w[1..13][i - 1];
        } else if 13 <= i < 25 {
          assert e[i] == e[13..25][i - 13];
          assert w[i] == w[13..25][i - 13];
        }
      }
    }
  }

  /** Unary minus on a binary32 value: flips the sign bit, bit 7 of the last
      (most significant) byte, and nothing else. */
  function Negate(w: Word): (r: Word)
    ensures r[..3] == w[..3]
    ensures r[3] & 0x7F == w[3] & 0x7F && r[3] & 0x80 != w[3] & 0x80
  {
    w[..3] + [w[3] ^ 0x80]
  }

  lemma NegateInvolutive(w: Word)
    ensures Negate(Negate(w)) == w
  {
    assert Negate(Negate(w))[3] == w[3];
    assert Negate(Negate(w))[..3] == w[..3];
  }
}
