/**
 * The Pico firmware's main loop: the status LED and the packet built for
 * every successful IMU read.  The microsecond timer is an input to each
 * call, and the conversion of a reading to the bytes of a binary32 `float`
 * is a parameter `bits`.
 */
module PicoMain {
  import opened Wrappers
  import opened LinAlg
  import opened Packet
  import opened Framing
  import opened FramingStream
  import opened Transport
  import PicoImu
  import TcpTransport

  const TwoTo32: nat := 0x1_0000_0000

  /** `uint32_t`, the type of `time_us_32()`. */
  type U32 = x: nat | x < TwoTo32

  /** Half a second, in microseconds. */
  const BlinkInterval: nat := 500000

  /** The LED pin and the `static last_blink` of `set_led_status` (initially 0). */
  datatype Led = Led(on: bool, lastBlink: U32)

  /** `now - last_blink` in unsigned 32-bit arithmetic. */
  function Elapsed(now: U32, last: U32): (r: U32)
    ensures last <= now ==> r == now - last
    ensures now < last ==> r == TwoTo32 - last + now
  {
    (now - last) % TwoTo32
  }

  /** `set_led_status(connected)` at timer value `now`. */
  function SetLedStatus(led: Led, connected: bool, now: U32): (r: Led)
    ensures connected ==> r == Led(true, led.lastBlink)
    ensures !connected && Elapsed(now, led.lastBlink) > BlinkInterval ==> r == Led(!led.on, now)
    ensures !connected && Elapsed(now, led.lastBlink) <= BlinkInterval ==> r == led
  {
    if connected then led.(on := true)
    else if Elapsed(now, led.lastBlink) > BlinkInterval then Led(!led.on, now)
    else led
  }

  /** Once the LED has toggled, it does not toggle again for half a second, whatever the timer wraps to. */
  lemma NoToggleWithinInterval(led: Led, t: U32, d: nat)
    requires Elapsed(t, led.lastBlink) > BlinkInterval && d <= BlinkInterval
    ensures var toggled := SetLedStatus(led, false, t);
            var later := (t + d) % TwoTo32;
            SetLedStatus(toggled, false, later) == toggled
  {
    var later := (t + d) % TwoTo32;
    assert Elapsed(later, t) == d;
  }

  /** Half a second and a microsecond after a toggle, it toggles again, also across the wrap of the timer. */
  lemma ToggleAfterInterval(led: Led, t: U32, d: nat)
    requires Elapsed(t, led.lastBlink) > BlinkInterval && BlinkInterval < d < TwoTo32
    ensures var toggled := SetLedStatus(led, false, t);
            var later := (t + d) % TwoTo32;
            SetLedStatus(toggled, false, later) == Led(led.on, later)
  {
    var later := (t + d) % TwoTo32;
    assert Elapsed(later, t) == d;
  }

  /** While connected the LED is on and the blink clock is left alone. */
  lemma {:induction false} ConnectedIsSteady(led: Led, times: seq<U32>)
    ensures |times| > 0 ==> ConnectedRun(led, times) == Led(true, led.lastBlink)
    decreases |times|
  {
    if |times| > 1 {
      ConnectedIsSteady(SetLedStatus(led, true, times[0]), times[1..]);
    }
  }

  /** The LED after successive connected iterations of the main loop. */
  function ConnectedRun(led: Led, times: seq<U32>): Led
    decreases |times|
  {
    if |times| == 0 then led else ConnectedRun(SetLedStatus(led, true, times[0]), times[1..])
  }

  /** The three floats of a vector, as the bytes `memcpy` copies. */
  function WordsOf(v: Vec3, bits: real -> Word): WordVec {
    WordVec(bits(v.x), bits(v.y), bits(v.z))
  }

  /** What one reading puts into a packet. */
  function PayloadOf(d: PicoImu.Data, bits: real -> Word): Payload {
    Payload(WordsOf(d.accel, bits), WordsOf(d.gyro, bits))
  }

  /** One pass of the main loop: the packet sent for a successful read, nothing for a failed one. */
  function LoopStep(result: Option<PicoImu.Data>, bits: real -> Word): (r: Option<Frame>)
    ensures r.Some? <==> result.Some?
    ensures r.Some? ==> DecodePayload(r.value) == PayloadOf(result.value, bits)
  {
    match result
    case None => None
    case Some(d) =>
      DecodeEncode(PayloadOf(d, bits));
      Some(Encode(PayloadOf(d, bits)))
  }

  /** The readings that succeeded, in order. */
  function Successes(results: seq<Option<PicoImu.Data>>): (r: seq<PicoImu.Data>)
    ensures |r| <= |results|
    decreases |results|
  {
    if |results| == 0 then []
    else if results[0].None? then Successes(results[1..])
    else [results[0].value] + Successes(results[1..])
  }

  function Payloads(ds: seq<PicoImu.Data>, bits: real -> Word): (r: seq<Payload>)
    ensures |r| == |ds| && forall i | 0 <= i < |ds| :: r[i] == PayloadOf(ds[i], bits)
  {
    seq(|ds|, i requires 0 <= i < |ds| => PayloadOf(ds[i], bits))
  }

  /** The bytes the loop writes to the socket over successive iterations. */
  function Transmit(results: seq<Option<PicoImu.Data>>, bits: real -> Word): seq<Byte>
    decreases |results|
  {
    if |results| == 0 then []
    else
      var step := LoopStep(results[0], bits);
      (if step.Some? then step.value else []) + Transmit(results[1..], bits)
  }

  /** The transmitted stream is exactly the packets of the successful reads, back to back. */
  lemma {:induction false} TransmitIsEncodeAll(results: seq<Option<PicoImu.Data>>, bits: real -> Word)
    ensures Transmit(results, bits) == EncodeAll(Payloads(Successes(results), bits))
    decreases |results|
  {
    if |results| > 0 {
      TransmitIsEncodeAll(results[1..], bits);
      if results[0].Some? {
        SuccessfulStep(results, bits);
      }
    }
  }

  /** A successful first read puts its packet in front of what the rest sends. */
  lemma SuccessfulStep(results: seq<Option<PicoImu.Data>>, bits: real -> Word)
    requires |results| > 0 && results[0].Some?
    requires Transmit(results[1..], bits) == EncodeAll(Payloads(Successes(results[1..]), bits))
    ensures Transmit(results, bits) == EncodeAll(Payloads(Successes(results), bits))
  {
    var v := results[0].value;
    var rest := Successes(results[1..]);
    assert Successes(results) == [v] + rest;
    assert Transmit(results, bits) == Encode(PayloadOf(v, bits)) + Transmit(results[1..], bits);
    PayloadsCons(v, rest, bits);
    EncodeAllCons(PayloadOf(v, bits), Payloads(rest, bits));
  }

  lemma PayloadsCons(d: PicoImu.Data, ds: seq<PicoImu.Data>, bits: real -> Word)
    ensures Payloads([d] + ds, bits) == [PayloadOf(d, bits)] + Payloads(ds, bits)
  {
  }

  /**
   * End to end: the host's TCP server with a connected client and an empty
   * buffer, handed everything the Pico sent in one read, delivers one reading
   * per successful IMU read, in order, carrying that read's float bytes with
   * the x components sign-flipped, and keeps no bytes back.
   */
  lemma TcpDeliversEveryReading(results: seq<Option<PicoImu.Data>>, bits: real -> Word,
                                server: TcpTransport.Server, clock: nat -> nat)
    requires server.hasClient && server.buffer == []
    ensures var r := TcpTransport.HandleReadyRead(server, Transmit(results, bits), clock);
            var ds := Successes(results);
            && r.server.buffer == []
            && |r.readings| == |ds|
            && forall i | 0 <= i < |ds| ::
                 && r.readings[i].accel == WordVec(Negate(bits(ds[i].accel.x)), bits(ds[i].accel.y), bits(ds[i].accel.z))
                 && r.readings[i].gyro == WordVec(Negate(bits(ds[i].gyro.x)), bits(ds[i].gyro.y), bits(ds[i].gyro.z))
  {
    var ds := Successes(results);
    var ps := Payloads(ds, bits);
    TransmitIsEncodeAll(results, bits);
    assert server.buffer + Transmit(results, bits) == EncodeAll(ps);
    DecodeStream(ps);
    var r := TcpTransport.HandleReadyRead(server, Transmit(results, bits), clock);
    forall i | 0 <= i < |ds|
      ensures r.readings[i].accel == WordVec(Negate(bits(ds[i].accel.x)), bits(ds[i].accel.y), bits(ds[i].accel.z))
      ensures r.readings[i].gyro == WordVec(Negate(bits(ds[i].gyro.x)), bits(ds[i].gyro.y), bits(ds[i].gyro.z))
    {
      var w := Drain(EncodeAll(ps)).packets[i];
      assert DecodePayload(w) == PayloadOf(ds[i], bits);
    }
  }
}
