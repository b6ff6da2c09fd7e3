/**
 * Stream-level properties of the resynchronisation loop: what a transport
 * delivers over a sequence of `readyRead` chunks, and the round trip from the
 * Pico's packet encoder through the host decoder.
 */
module FramingStream {
  import opened Packet
  import opened Framing

  /** `ps`, in order, occur as disjoint 26-byte slices of `s`, and `rest` is a
      suffix of what follows the last of them. */
  ghost predicate Framed(ps: seq<seq<Byte>>, s: seq<Byte>, rest: seq<Byte>)
    decreases |ps|
  {
    if |ps| == 0 then IsSuffix(rest, s)
    else exists k :: FrameAt(s, k, ps[0]) && Framed(ps[1..], s[k + PacketSize..], rest)
  }

  ghost predicate FrameAt(s: seq<Byte>, k: int, p: seq<Byte>) {
    0 <= k && k + PacketSize <= |s| && s[k..k + PacketSize] == p
  }

  /** A buffer with no start marker yields nothing: with at least a packet's
      length it is emptied completely, and a shorter one is kept as it is. */
  lemma DrainWithoutStart(buf: seq<Byte>)
    requires PacketStart !in buf
    ensures |buf| >= PacketSize ==> Drain(buf) == Drained([], [])
    ensures |buf| < PacketSize ==> Drain(buf) == Drained(buf, [])
  {
    if |buf| >= PacketSize {
      IterateWithoutStart(buf);
    }
  }

  lemma FramedSuffix(ps: seq<seq<Byte>>, s: seq<Byte>, j: nat, rest: seq<Byte>)
    requires j <= |s| && Framed(ps, s[j..], rest)
    ensures Framed(ps, s, rest)
  {
    if |ps| > 0 {
      var k :| FrameAt(s[j..], k, ps[0]) && Framed(ps[1..], s[j..][k + PacketSize..], rest);
      assert s[j..][k..k + PacketSize] == s[j + k..j + k + PacketSize];
      assert s[j..][k + PacketSize..] == s[j + k + PacketSize..];
      assert FrameAt(s, j + k, ps[0]);
    }
  }

  lemma FramedCons(p: seq<Byte>, ps: seq<seq<Byte>>, s: seq<Byte>, k: int, rest: seq<Byte>)
    requires FrameAt(s, k, p) && Framed(ps, s[k + PacketSize..], rest)
    ensures Framed([p] + ps, s, rest)
  {
    assert ([p] + ps)[0] == p;
    assert ([p] + ps)[1..] == ps;
  }

  /** The windows the loop accepts occur in the buffer in the order delivered,
      without overlap, and what remains is a suffix of what follows them. */
  lemma {:induction false} DrainFramed(buf: seq<Byte>)
    ensures Framed(Drain(buf).packets, buf, Drain(buf).rest)
    decreases |buf|
  {
    if |buf| >= PacketSize {
      var it := Iterate(buf);
      var tail := Drain(it.buf);
      DrainFramed(it.buf);
      var j := |buf| - |it.buf|;
      IterateKeepsSuffix(buf);
      assert buf[j..] == it.buf;
      if it.packet.Some? {
        var k := IndexOf(buf, PacketStart);
        IterateWithStart(buf, k);
        assert k + PacketSize <= |buf| && buf[k + PacketSize - 1] == PacketEnd;
        assert it.buf == buf[k + PacketSize..];
        FramedCons(it.packet.value, tail.packets, buf, k, tail.rest);
      } else {
        assert [] + tail.packets == tail.packets;
        FramedSuffix(tail.packets, buf, j, tail.rest);
      }
    }
  }

  lemma {:induction false} FramedAppend(ps: seq<seq<Byte>>, s: seq<Byte>, rest: seq<Byte>, c: seq<Byte>)
    requires Framed(ps, s, rest)
    ensures Framed(ps, s + c, rest + c)
    decreases |ps|
  {
    if |ps| == 0 {
      assert (s + c)[|s + c| - |rest + c|..] == s[|s| - |rest|..] + c;
    } else {
      var k :| FrameAt(s, k, ps[0]) && Framed(ps[1..], s[k + PacketSize..], rest);
      FramedAppend(ps[1..], s[k + PacketSize..], rest, c);
      assert (s + c)[k..k + PacketSize] == s[k..k + PacketSize];
      assert (s + c)[k + PacketSize..] == s[k + PacketSize..] + c;
      assert FrameAt(s + c, k, ps[0]);
    }
  }

  lemma {:induction false} FramedCompose(ps1: seq<seq<Byte>>, ps2: seq<seq<Byte>>, s: seq<Byte>, mid: seq<Byte>, rest: seq<Byte>)
    requires Framed(ps1, s, mid) && Framed(ps2, mid, rest)
    ensures Framed(ps1 + ps2, s, rest)
    decreases |ps1|
  {
    if |ps1| == 0 {
      assert ps1 + ps2 == ps2;
      assert s[|s| - |mid|..] == mid;
      FramedSuffix(ps2, s, |s| - |mid|, rest);
    } else {
      var k :| FrameAt(s, k, ps1[0]) && Framed(ps1[1..], s[k + PacketSize..], mid);
      FramedCompose(ps1[1..], ps2, s[k + PacketSize..], mid, rest);
      assert (ps1 + ps2)[1..] == ps1[1..] + ps2;
      assert FrameAt(s, k, (ps1 + ps2)[0]);
    }
  }

  /** The bytes of a sequence of chunks, in order. */
  function Concat(chunks: seq<seq<Byte>>): seq<Byte>
    decreases |chunks|
  {
    if |chunks| == 0 then [] else chunks[0] + Concat(chunks[1..])
  }

  lemma ConcatCons(buf: seq<Byte>, chunks: seq<seq<Byte>>)
    requires |chunks| > 0
    ensures (buf + chunks[0]) + Concat(chunks[1..]) == buf + Concat(chunks)
  {
    assert Concat(chunks) == chunks[0] + Concat(chunks[1..]);
    AppendAssoc(buf, chunks[0], Concat(chunks[1..]));
  }

  /** Successive `handleReadyRead` calls, one per chunk read from the device,
      starting from buffer `buf`: the final buffer and every window accepted. */
  function Feed(buf: seq<Byte>, chunks: seq<seq<Byte>>): (r: Drained)
    ensures |chunks| > 0 ==> |r.rest| < PacketSize
    decreases |chunks|
  {
    if |chunks| == 0 then Drained(buf, [])
    else
      var d := Drain(buf + chunks[0]);
      var more := Feed(d.rest, chunks[1..]);
      Drained(more.rest, d.packets + more.packets)
  }

  /** Across any number of reads, delivered windows appear in stream order, each
      a contiguous 26-byte slice of everything appended, none overlapping. */
  lemma {:induction false} FeedFramed(buf: seq<Byte>, chunks: seq<seq<Byte>>)
    ensures Framed(Feed(buf, chunks).packets, buf + Concat(chunks), Feed(buf, chunks).rest)
    decreases |chunks|
  {
    if |chunks| == 0 {
      assert buf + Concat(chunks) == buf;
      assert Framed([], buf, buf);
    } else {
      var first, later := buf + chunks[0], Concat(chunks[1..]);
      var d := Drain(first);
      var more := Feed(d.rest, chunks[1..]);
      DrainFramed(first);
      FramedAppend(d.packets, first, d.rest, later);
      ConcatCons(buf, chunks);
      FeedFramed(d.rest, chunks[1..]);
      FramedCompose(d.packets, more.packets, buf + Concat(chunks), d.rest + later, more.rest);
      assert Feed(buf, chunks) == Drained(more.rest, d.packets + more.packets);
    }
  }

  /** A stream of packets as the Pico sends them, one after another. */
  function EncodeAll(ps: seq<Payload>): (r: seq<Byte>)
    ensures |r| == PacketSize * |ps|
    decreases |ps|
  {
    if |ps| == 0 then [] else Encode(ps[0]) + EncodeAll(ps[1..])
  }

  lemma EncodeAllCons(p: Payload, ps: seq<Payload>)
    ensures EncodeAll([p] + ps) == Encode(p) + EncodeAll(ps)
  {
    assert ([p] + ps)[1..] == ps;
  }

  /** The windows a decoder should deliver for those packets. */
  function Frames(ps: seq<Payload>): (r: seq<Frame>)
    ensures |r| == |ps|
    ensures forall i | 0 <= i < |ps| :: r[i] == Encode(ps[i])
  {
    seq(|ps|, i requires 0 <= i < |ps| => Encode(ps[i]))
  }

  /** A well-formed packet at the front of the buffer is delivered as is, and
      the loop carries on with the bytes after it. */
  lemma DrainFrameAtFront(e: seq<Byte>, more: seq<Byte>)
    requires IsFrame(e)
    ensures Drain(e + more) == Drained(Drain(more).rest, [e] + Drain(more).packets)
  {
    var buf := e + more;
    assert buf[0] == PacketStart && buf[..0] == [];
    assert buf[PacketSize - 1] == e[PacketSize - 1];
    IterateWithStart(buf, 0);
    assert buf[..PacketSize] == e;
    assert buf[PacketSize..] == more;
  }

  /** Fed a run of encoded packets followed by fewer than 26 further bytes, the
      loop delivers exactly those packets, in order, and keeps the tail. */
  lemma {:induction false} DrainEncoded(ps: seq<Payload>, t: seq<Byte>)
    requires |t| < PacketSize
    ensures Drain(EncodeAll(ps) + t) == Drained(t, Frames(ps))
    decreases |ps|
  {
    if |ps| == 0 {
      assert EncodeAll(ps) + t == t;
      assert Frames(ps) == [];
    } else {
      DrainEncoded(ps[1..], t);
      DrainEncodedStep(ps, t);
    }
  }

  /** One packet more in front of a stream the loop already decodes. */
  lemma DrainEncodedStep(ps: seq<Payload>, t: seq<Byte>)
    requires |ps| > 0
    requires Drain(EncodeAll(ps[1..]) + t) == Drained(t, Frames(ps[1..]))
    ensures Drain(EncodeAll(ps) + t) == Drained(t, Frames(ps))
  {
    var e := Encode(ps[0]);
    var more := EncodeAll(ps[1..]) + t;
    assert EncodeAll(ps) == e + EncodeAll(ps[1..]);
    AppendAssoc(e, EncodeAll(ps[1..]), t);
    DrainFrameAtFront(e, more);
    FramesCons(ps);
  }

  lemma FramesCons(ps: seq<Payload>)
    requires |ps| > 0
    ensures Frames(ps) == [Encode(ps[0])] + Frames(ps[1..])
  {
  }

  /** Round trip: a concatenation of encoded packets, handed to the decoder in
      one read, is delivered whole, in order, and leaves the buffer empty. */
  lemma DecodeStream(ps: seq<Payload>)
    ensures Drain(EncodeAll(ps)) == Drained([], Frames(ps))
    ensures forall i | 0 <= i < |ps| :: DecodePayload(Drain(EncodeAll(ps)).packets[i]) == ps[i]
  {
    assert EncodeAll(ps) + [] == EncodeAll(ps);
    DrainEncoded(ps, []);
    forall i | 0 <= i < |ps| ensures DecodePayload(Frames(ps)[i]) == ps[i] {
      DecodeEncode(ps[i]);
    }
  }

  lemma {:induction false} EncodeAllSplit(ps: seq<Payload>, m: nat)
    requires m <= |ps|
    ensures EncodeAll(ps) == EncodeAll(ps[..m]) + EncodeAll(ps[m..])
    decreases m
  {
    if m == 0 {
      assert ps[..0] == [] && ps[0..] == ps;
    } else {
      var tail := ps[1..];
      EncodeAllSplit(tail, m - 1);
      assert tail[m - 1..] == ps[m..];
      assert EncodeAll(ps[..m]) == Encode(ps[0]) + EncodeAll(tail[..m - 1]) by {
        assert ps[..m][0] == ps[0];
        assert ps[..m][1..] == tail[..m - 1];
      }
      AppendAssoc(Encode(ps[0]), EncodeAll(tail[..m - 1]), EncodeAll(ps[m..]));
    }
  }

  lemma FramesSplit(ps: seq<Payload>, m: nat)
    requires m <= |ps|
    ensures Frames(ps) == Frames(ps[..m]) + Frames(ps[m..])
  {
  }

  /** Round trip under any chunking: whatever sizes the reads come in, a stream
      of encoded packets yields exactly those packets, in order, and the
      buffer ends empty. */
  lemma {:induction false} FeedEncoded(ps: seq<Payload>, buf: seq<Byte>, chunks: seq<seq<Byte>>)
    requires |buf| < PacketSize
    requires buf + Concat(chunks) == EncodeAll(ps)
    ensures Feed(buf, chunks) == Drained([], Frames(ps))
    decreases |chunks|
  {
    if |chunks| == 0 {
      assert buf + Concat(chunks) == buf;
      assert |ps| == 0;
      assert Frames(ps) == [];
    } else {
      var c, later := chunks[0], Concat(chunks[1..]);
      assert (buf + c) + later == EncodeAll(ps) by {
        assert Concat(chunks) == c + later;
        AppendAssoc(buf, c, later);
      }
      var t := SplitAtPacket(ps, buf + c, later);
      var m := |buf + c| / PacketSize;
      DrainEncoded(ps[..m], t);
      FeedEncoded(ps[m..], t, chunks[1..]);
      FeedStep(ps, buf, chunks, t, m);
    }
  }

  /** A read that ends inside the stream of packets ends after the last whole
      packet it completes plus a partial one shorter than a packet. */
  lemma SplitAtPacket(ps: seq<Payload>, got: seq<Byte>, later: seq<Byte>) returns (t: seq<Byte>)
    requires got + later == EncodeAll(ps)
    ensures |got| / PacketSize <= |ps|
    ensures |t| < PacketSize
    ensures got == EncodeAll(ps[..|got| / PacketSize]) + t
    ensures t + later == EncodeAll(ps[|got| / PacketSize..])
  {
    var stream := EncodeAll(ps);
    var len := |got|;
    var m := len / PacketSize;
    var head, tail := EncodeAll(ps[..m]), EncodeAll(ps[m..]);
    assert stream == head + tail by {
      EncodeAllSplit(ps, m);
    }
    t := tail[..len - PacketSize * m];
    assert |head| == PacketSize * m;
    assert got == stream[..len];
    assert stream[..len] == head + t;
    assert later == stream[len..];
    assert stream[len..] == tail[len - PacketSize * m..];
  }

  /** The packets of the first read, then those of the reads after it. */
  lemma FeedStep(ps: seq<Payload>, buf: seq<Byte>, chunks: seq<seq<Byte>>, t: seq<Byte>, m: nat)
    requires |chunks| > 0 && m <= |ps|
    requires Drain(buf + chunks[0]) == Drained(t, Frames(ps[..m]))
    requires Feed(t, chunks[1..]) == Drained([], Frames(ps[m..]))
    ensures Feed(buf, chunks) == Drained([], Frames(ps))
  {
    FramesSplit(ps, m);
  }
}
