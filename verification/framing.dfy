/**
 * The byte-stream resynchronisation loop that both host transports run on
 * their receive buffer after appending the newly read bytes.  While at least a
 * packet's worth of bytes is buffered it drops everything before the first
 * start marker (or the whole buffer when there is none), then either accepts
 * the 26-byte window at the front and drops it, or rejects it and drops one
 * byte.
 */
module Framing {
  import opened Wrappers
  import opened Packet

  /** `QByteArray::indexOf`: the first position of `b`, or -1. */
  function IndexOf(buf: seq<Byte>, b: Byte): (r: int)
    ensures -1 <= r < |buf|
    ensures r == -1 <==> b !in buf
    ensures 0 <= r ==> buf[r] == b && b !in buf[..r]
  {
    if |buf| == 0 then -1
    else if buf[0] == b then 0
    else
      var k := IndexOf(buf[1..], b);
      if k < 0 then -1
      else
        assert buf[..k + 1] == [buf[0]] + buf[1..][..k];
        k + 1
  }

  ghost predicate IsSuffix(r: seq<Byte>, s: seq<Byte>) {
    |r| <= |s| && s[|s| - |r|..] == r
  }

  /** One pass of the loop body, on a buffer that holds at least a packet. */
  datatype Iteration = Iteration(buf: seq<Byte>, packet: Option<Frame>)

  function Iterate(buf: seq<Byte>): (r: Iteration)
    requires |buf| >= PacketSize
    // each pass removes at least one byte, so the loop terminates
    ensures |r.buf| < |buf|
  {
    var start := IndexOf(buf, PacketStart);
    if start < 0 then Iteration([], None)
    else
      var aligned := buf[start..];
      if |aligned| < PacketSize then Iteration(aligned, None)
      else if IsFrame(aligned[..PacketSize]) then
        Iteration(aligned[PacketSize..], Some(aligned[..PacketSize]))
      else
        Iteration(aligned[1..], None)
  }

  /** Bytes only ever leave the buffer from the front. */
  lemma IterateKeepsSuffix(buf: seq<Byte>)
    requires |buf| >= PacketSize
    ensures IsSuffix(Iterate(buf).buf, buf)
  {
    var start := IndexOf(buf, PacketStart);
    if start < 0 {
      DropIsSuffix(buf, |buf|);
    } else if |buf| - start < PacketSize {
      DropIsSuffix(buf, start);
    } else {
      var aligned := buf[start..];
      if IsFrame(aligned[..PacketSize]) {
        assert aligned[PacketSize..] == buf[start + PacketSize..];
        DropIsSuffix(buf, start + PacketSize);
      } else {
        assert aligned[1..] == buf[start + 1..];
        DropIsSuffix(buf, start + 1);
      }
    }
  }

  lemma DropIsSuffix(s: seq<Byte>, k: nat)
    requires k <= |s|
    ensures IsSuffix(s[k..], s)
  {
  }

  /** Without a start marker, one pass empties the buffer and accepts nothing. */
  lemma IterateWithoutStart(buf: seq<Byte>)
    requires |buf| >= PacketSize && PacketStart !in buf
    ensures Iterate(buf) == Iteration([], None)
  {
  }

  /**
   * With a start marker at first position `k`, one pass drops exactly the
   * bytes before it, then decides on the window there: a window too short to
   * hold a packet is kept whole, an accepted one (its last byte is the end
   * marker) is delivered and its 26 bytes removed, a rejected one loses only
   * its first byte.
   */
  lemma IterateWithStart(buf: seq<Byte>, k: nat)
    requires |buf| >= PacketSize
    requires k < |buf| && buf[k] == PacketStart && PacketStart !in buf[..k]
    ensures k + PacketSize > |buf| ==> Iterate(buf) == Iteration(buf[k..], None)
    ensures k + PacketSize <= |buf| && buf[k + PacketSize - 1] == PacketEnd ==>
      Iterate(buf) == Iteration(buf[k + PacketSize..], Some(buf[k..k + PacketSize]))
    ensures k + PacketSize <= |buf| && buf[k + PacketSize - 1] != PacketEnd ==>
      Iterate(buf) == Iteration(buf[k + 1..], None)
  {
    var start := IndexOf(buf, PacketStart);
    assert start == k;
    var aligned := buf[k..];
    if |aligned| >= PacketSize {
      assert aligned[..PacketSize] == buf[k..k + PacketSize];
      assert aligned[PacketSize..] == buf[k + PacketSize..];
      assert aligned[1..] == buf[k + 1..];
    }
  }

  /** What a run of the loop leaves behind and the windows it accepted, in order. */
  datatype Drained = Drained(rest: seq<Byte>, packets: seq<Frame>)

  /** The whole loop, as a function of the buffer it starts from. */
  function Drain(buf: seq<Byte>): (r: Drained)
    ensures |r.rest| < PacketSize
    decreases |buf|
  {
    if |buf| < PacketSize then Drained(buf, [])
    else
      var it := Iterate(buf);
      var tail := Drain(it.buf);
      var here := if it.packet.Some? then [it.packet.value] else [];
      Drained(tail.rest, here + tail.packets)
  }

  /** Dropping the bytes before the first start marker changes nothing the
      loop goes on to deliver or keep. */
  lemma DrainSkipsPrefix(buf: seq<Byte>, k: nat)
    requires |buf| >= PacketSize && k == IndexOf(buf, PacketStart)
    ensures Drain(buf) == Drain(buf[k..])
  {
    var a := buf[k..];
    if |a| >= PacketSize {
      assert a[0] == PacketStart && a[..0] == [];
      assert IndexOf(a, PacketStart) == 0;
      assert a[0..] == a;
    }
  }

  /** With the start marker at the front, the window there decides alone:
      accepted, it is delivered and 26 bytes go; rejected, one byte goes. */
  lemma DrainAtStart(b: seq<Byte>)
    requires |b| >= PacketSize && b[0] == PacketStart
    ensures IsFrame(b[..PacketSize]) ==>
      Drain(b) == Drained(Drain(b[PacketSize..]).rest, [b[..PacketSize]] + Drain(b[PacketSize..]).packets)
    ensures !IsFrame(b[..PacketSize]) ==> Drain(b) == Drain(b[1..])
  {
    assert b[..0] == [];
    assert IndexOf(b, PacketStart) == 0;
    assert b[0..] == b;
  }

  /**
   * `handleReadyRead`'s loop as the code writes it, run on the buffer after
   * the new bytes are appended.
   */
  method HandleBuffer(buffer0: seq<Byte>) returns (buffer: seq<Byte>, packets: seq<Frame>)
    ensures |buffer| < PacketSize
    ensures Drained(buffer, packets) == Drain(buffer0)
  {
    buffer := buffer0;
    packets := [];
    assert packets + Drain(buffer).packets == Drain(buffer).packets;
    while |buffer| >= PacketSize
      invariant Drain(buffer0) == Drained(Drain(buffer).rest, packets + Drain(buffer).packets)
      decreases |buffer|
    {
      var start := IndexOf(buffer, PacketStart);
      if start < 0 {
        assert Drain(buffer) == Drained([], []) by {
          assert Iterate(buffer) == Iteration([], None);
        }
        buffer := [];
        assert packets + [] == packets;
        break;
      }
      DrainSkipsPrefix(buffer, start);
      if start > 0 {
        buffer := buffer[start..];
      } else {
        assert buffer[start..] == buffer;
      }
      if |buffer| >= PacketSize {
        DrainAtStart(buffer);
        var packet := buffer[..PacketSize];
        if IsFrame(packet) {
          AppendAssoc(packets, [packet], Drain(buffer[PacketSize..]).packets);
          packets := packets + [packet];
          buffer := buffer[PacketSize..];
        } else {
          buffer := buffer[1..];
        }
      }
    }
  }

  lemma AppendAssoc<T>(a: seq<T>, b: seq<T>, c: seq<T>)
    ensures a + (b + c) == (a + b) + c
  {
  }
}
