/**
 * `SerialTransport`: the receive buffer of the serial port, its clearing on
 * connect and disconnect, and the packet decoder run on every `readyRead`.
 */
module SerialTransport {
  import opened Wrappers
  import opened Packet
  import opened Framing
  import opened Transport

  /** The port's open flag and the bytes buffered but not yet framed. */
  datatype Port = Port(open: bool, buffer: seq<Byte>)

  /** A transport fresh from its constructor: closed, nothing buffered. */
  const Initial := Port(false, [])

  /** The result of a call that returns a success flag. */
  datatype Call = Call(port: Port, ok: bool)

  /**
   * `connect`: an open port is left alone and reports success; otherwise the
   * device open (whose outcome is the input `opens`) decides, and only a
   * successful open clears the buffer.
   */
  function Connect(p: Port, opens: bool): (r: Call)
    ensures p.open ==> r == Call(p, true)
    ensures !p.open && !opens ==> r == Call(p, false)
    ensures !p.open && opens ==> r.ok && r.port.open && r.port.buffer == []
  {
    if p.open then Call(p, true)
    else if !opens then Call(p, false)
    else Call(Port(true, []), true)
  }

  /** `disconnect`: closing an open port clears the buffer; a closed port is left alone. */
  function Disconnect(p: Port): (r: Call)
    ensures r.ok && !r.port.open
    ensures p.open ==> r.port.buffer == []
    ensures !p.open ==> r.port == p
  {
    if !p.open then Call(p, true)
    else Call(Port(false, []), true)
  }

  /** Once connected, connecting again is a no-op that reports success, whatever the device would do. */
  lemma ConnectIdempotent(p: Port, opens: bool, opensAgain: bool)
    requires Connect(p, opens).ok
    ensures Connect(Connect(p, opens).port, opensAgain) == Connect(p, opens)
  {
  }

  /** Disconnecting and connecting again starts from an empty buffer: no stale bytes survive a reconnect. */
  lemma ReconnectStartsEmpty(p: Port)
    ensures Connect(Disconnect(p).port, true) == Call(Port(true, []), true)
  {
  }

  /**
   * `processPacket`: a window is accepted exactly when both markers are in
   * place; the accelerometer array is copied from bytes 1..12 and the gyroscope
   * array from bytes 13..24, with no change of sign.
   */
  function ProcessPacket(packet: seq<Byte>, now: nat): (r: Option<Reading>)
    requires |packet| == PacketSize
    ensures r.Some? <==> packet[0] == PacketStart && packet[PacketSize - 1] == PacketEnd
    ensures r.Some? ==>
      r.value.timestamp == now && Bytes(r.value.accel) == packet[1..13] && Bytes(r.value.gyro) == packet[13..25]
  {
    if !IsFrame(packet) then None
    else Some(Reading(now, WordVecOf(packet[1..13]), WordVecOf(packet[13..25])))
  }

  /**
   * A byte read back as a host `char`: where `char` is signed, the bytes
   * 0x80..0xFF read back as the negative numbers -128..-1.
   */
  function CharValue(b: Byte, signedChar: bool): (v: int)
    ensures !signedChar || b < 0x80 ==> v == b as int
    ensures signedChar ==> -128 <= v < 128 && v % 256 == b as int
  {
    if signedChar && b >= 0x80 then b as int - 256 else b as int
  }

  /**
   * `processPacket` as written: the window's first and last bytes are read as
   * `char` and compared with the markers declared as `uint8_t`, which take part
   * in the comparison as the numbers 170 and 85.
   */
  function ProcessPacketAsWritten(packet: seq<Byte>, now: nat, signedChar: bool): (r: Option<Reading>)
    requires |packet| == PacketSize
    ensures r.Some? ==> r == ProcessPacket(packet, now)
  {
    if CharValue(packet[0], signedChar) != PacketStart as int || CharValue(packet[PacketSize - 1], signedChar) != PacketEnd as int
    then None
    else Some(Reading(now, WordVecOf(packet[1..13]), WordVecOf(packet[13..25])))
  }

  /**
   * On a host with signed `char`, the start-marker test as written can never
   * succeed: no window of the stream is accepted.
   */
  lemma SignedCharRejectsEveryWindow(packet: seq<Byte>, now: nat)
    requires |packet| == PacketSize
    ensures ProcessPacketAsWritten(packet, now, true) == None
  {
    assert CharValue(packet[0], true) < PacketStart as int;
  }

  /**
   * In particular every packet the firmware sends is rejected, although the
   * byte-level decoder accepts it.
   */
  lemma SignedCharRejectsEveryPacket(p: Payload, now: nat)
    ensures ProcessPacket(Encode(p), now).Some?
    ensures ProcessPacketAsWritten(Encode(p), now, true) == None
  {
    SignedCharRejectsEveryWindow(Encode(p), now);
  }

  /** With unsigned `char` the comparison as written is the intended byte comparison. */
  lemma UnsignedCharAgrees(packet: seq<Byte>, now: nat)
    requires |packet| == PacketSize
    ensures ProcessPacketAsWritten(packet, now, false) == ProcessPacket(packet, now)
  {
  }

  /** `processPacket` on a window the loop has already accepted. */
  function Decode(packet: Frame, now: nat): Reading {
    ProcessPacket(packet, now).value
  }

  /** The outcome of one `handleReadyRead`: the new port and the callbacks made. */
  datatype ReadyRead = ReadyRead(port: Port, readings: seq<Reading>)

  /**
   * `handleReadyRead`: append the bytes read, run the resynchronisation loop,
   * and call back once per accepted window, in order.
   */
  function HandleReadyRead(p: Port, chunk: seq<Byte>, clock: nat -> nat): (r: ReadyRead)
    ensures r.port.open == p.open
    ensures |r.port.buffer| < PacketSize
    ensures |r.readings| == |Drain(p.buffer + chunk).packets|
    ensures forall i | 0 <= i < |r.readings| ::
      var w := Drain(p.buffer + chunk).packets[i];
      |w| == PacketSize && ProcessPacket(w, clock(i)) == Some(r.readings[i])
  {
    var d := Drain(p.buffer + chunk);
    ReadyRead(p.(buffer := d.rest), Deliver(d.packets, clock, Decode))
  }
}
