/**
 * `TCPTransport`: a server that accepts one client at a time, buffers its
 * bytes and runs the same resynchronisation loop as the serial transport; its
 * decoder negates the x component of both vectors.
 */
module TcpTransport {
  import opened Wrappers
  import opened Packet
  import opened Framing
  import opened Transport
  import SerialTransport

  /** Whether the server listens, whether a client socket is held, and the bytes
      buffered from it. */
  datatype Server = Server(listening: bool, hasClient: bool, buffer: seq<Byte>)

  const Initial := Server(false, false, [])

  datatype Call = Call(server: Server, ok: bool)

  /** `connect`: start listening unless already listening; `listens` is the
      outcome of the socket call. */
  function Connect(s: Server, listens: bool): (r: Call)
    ensures s.listening ==> r == Call(s, true)
    ensures !s.listening ==> r.ok == listens && r.server == s.(listening := listens)
  {
    if s.listening then Call(s, true)
    else if !listens then Call(s, false)
    else Call(s.(listening := true), true)
  }

  /** `disconnect`: drop the client and stop listening; the buffer is kept. */
  function Disconnect(s: Server): (r: Call)
    ensures r.ok && !r.server.listening && !r.server.hasClient && r.server.buffer == s.buffer
  {
    Call(Server(false, false, s.buffer), true)
  }

  /**
   * `handleNewConnection`: while a client is held, the pending connection is
   * refused and nothing changes; otherwise a pending connection (`pending`)
   * becomes the client and starts with an empty buffer.
   */
  function HandleNewConnection(s: Server, pending: bool): (r: Server)
    ensures s.hasClient ==> r == s
    ensures !s.hasClient && pending ==> r.hasClient && r.buffer == [] && r.listening == s.listening
    ensures !s.hasClient && !pending ==> r == s
  {
    if s.hasClient then s
    else if !pending then s
    else s.(hasClient := true, buffer := [])
  }

  /** `handleClientDisconnected`: forget the client; the buffer is kept. */
  function HandleClientDisconnected(s: Server): (r: Server)
    ensures !r.hasClient && r.buffer == s.buffer && r.listening == s.listening
  {
    s.(hasClient := false)
  }

  /** Unlike the serial port, a disconnect and a fresh `listen` keep whatever a previous client left buffered. */
  lemma ReconnectKeepsBuffer(s: Server)
    ensures var r := Connect(Disconnect(s).server, true);
            r.ok && r.server == Server(true, false, s.buffer)
  {
  }

  /** Yet a client accepted after the previous one left never sees that client's bytes. */
  lemma NewClientStartsEmpty(s: Server)
    ensures var r := HandleNewConnection(HandleClientDisconnected(s), true);
            r.hasClient && r.buffer == [] && r.listening == s.listening
  {
  }

  /**
   * `isConnected`: a client socket is held.  The socket's own connection
   * state is not modelled; a held client counts as connected.
   */
  function IsConnected(s: Server): bool {
    s.hasClient
  }

  /**
   * The connection lifecycle as `isConnected` reports it: a pending client is
   * connected once accepted, a refused second client leaves the first one
   * connected, and both losing the client and `disconnect` end the connection.
   */
  lemma ConnectionLifecycle(s: Server, pending: bool)
    ensures !IsConnected(s) ==> (IsConnected(HandleNewConnection(s, pending)) <==> pending)
    ensures IsConnected(s) ==> IsConnected(HandleNewConnection(s, pending))
    ensures !IsConnected(HandleClientDisconnected(s))
    ensures !IsConnected(Disconnect(s).server)
    ensures IsConnected(s) <==> IsConnected(Connect(s, pending).server)
  {
  }

  /**
   * `processPacket`: a window is accepted exactly when both markers are in
   * place; the x components of the accelerometer and gyroscope arrays are
   * negated, y and z pass through unchanged.
   */
  function ProcessPacket(packet: seq<Byte>, now: nat): (r: Option<Reading>)
    requires |packet| == PacketSize
    ensures r.Some? <==> packet[0] == PacketStart && packet[PacketSize - 1] == PacketEnd
    ensures r.Some? ==>
      var accel, gyro := WordVecOf(packet[1..13]), WordVecOf(packet[13..25]);
      && r.value.timestamp == now
      && r.value.accel == WordVec(Negate(accel.x), accel.y, accel.z)
      && r.value.gyro == WordVec(Negate(gyro.x), gyro.y, gyro.z)
  {
    if !IsFrame(packet) then None
    else
      var accel, gyro := WordVecOf(packet[1..13]), WordVecOf(packet[13..25]);
      Some(Reading(now, WordVec(Negate(accel.x), accel.y, accel.z), WordVec(Negate(gyro.x), gyro.y, gyro.z)))
  }

  function Decode(packet: Frame, now: nat): Reading {
    ProcessPacket(packet, now).value
  }

  datatype ReadyRead = ReadyRead(server: Server, readings: seq<Reading>)

  /**
   * `handleReadyRead`: without a client nothing happens; otherwise the bytes
   * read are appended, the loop runs, and each accepted window is decoded and
   * delivered, in order.
   */
  function HandleReadyRead(s: Server, chunk: seq<Byte>, clock: nat -> nat): (r: ReadyRead)
    ensures !s.hasClient ==> r == ReadyRead(s, [])
    ensures s.hasClient ==>
      && r.server == s.(buffer := Drain(s.buffer + chunk).rest)
      && |r.readings| == |Drain(s.buffer + chunk).packets|
      && forall i | 0 <= i < |r.readings| ::
           ProcessPacket(Drain(s.buffer + chunk).packets[i], clock(i)) == Some(r.readings[i])
  {
    if !s.hasClient then ReadyRead(s, [])
    else
      var d := Drain(s.buffer + chunk);
      ReadyRead(s.(buffer := d.rest), Deliver(d.packets, clock, Decode))
  }

  /** The serial and TCP decoders agree on y and z and differ on x by exactly a
      sign flip, for every accepted window. */
  lemma DecodersDifferOnlyInXSign(packet: Frame, now: nat)
    ensures
      var s, t := SerialTransport.Decode(packet, now), Decode(packet, now);
      && t.timestamp == s.timestamp
      && t.accel == WordVec(Negate(s.accel.x), s.accel.y, s.accel.z)
      && t.gyro == WordVec(Negate(s.gyro.x), s.gyro.y, s.gyro.z)
  {
  }
}
