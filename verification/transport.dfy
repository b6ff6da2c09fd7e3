/**
 * What the host transports hand to their data callback for one accepted
 * window: a timestamp taken from the system clock when the window is decoded,
 * and the two float arrays as their in-memory words.
 */
module Transport {
  import opened Packet

  datatype Reading = Reading(timestamp: nat, accel: WordVec, gyro: WordVec)

  /**
   * The readings for a run of accepted windows, one per window and in the same
   * order; `clock(i)` is the system time read while decoding the i-th one and
   * `decode` is the transport's own `processPacket` for a well-formed window.
   */
  function Deliver(packets: seq<Frame>, clock: nat -> nat, decode: (Frame, nat) -> Reading): (r: seq<Reading>)
    ensures |r| == |packets|
    ensures forall i | 0 <= i < |packets| :: r[i] == decode(packets[i], clock(i))
  {
    seq(|packets|, i requires 0 <= i < |packets| => decode(packets[i], clock(i)))
  }

  /**
   * Delivering two runs of windows back to back is delivering the first run
   * and then the second, with the second's clock readings continuing where
   * the first run's left off.
   */
  lemma DeliverAppend(a: seq<Frame>, b: seq<Frame>, clock: nat -> nat, decode: (Frame, nat) -> Reading)
    ensures Deliver(a + b, clock, decode) == Deliver(a, clock, decode) + Deliver(b, i => clock(|a| + i), decode)
  {
    var whole := Deliver(a + b, clock, decode);
    var first, second := Deliver(a, clock, decode), Deliver(b, i => clock(|a| + i), decode);
    DeliverFront(a, b, clock, decode);
    DeliverBack(a, b, clock, decode);
    assert whole[..|a|] == first;
    assert whole[|a|..] == second;
    assert whole == whole[..|a|] + whole[|a|..];
  }

  lemma DeliverFront(a: seq<Frame>, b: seq<Frame>, clock: nat -> nat, decode: (Frame, nat) -> Reading)
    ensures Deliver(a + b, clock, decode)[..|a|] == Deliver(a, clock, decode)
  {
    var whole, first := Deliver(a + b, clock, decode), Deliver(a, clock, decode);
    forall i | 0 <= i < |a|
      ensures whole[i] == first[i]
    {
      assert (a + b)[i] == a[i];
    }
  }

  lemma DeliverBack(a: seq<Frame>, b: seq<Frame>, clock: nat -> nat, decode: (Frame, nat) -> Reading)
    ensures Deliver(a + b, clock, decode)[|a|..] == Deliver(b, i => clock(|a| + i), decode)
  {
    var later: nat -> nat := i => clock(|a| + i);
    var tail, second := Deliver(a + b, clock, decode)[|a|..], Deliver(b, later, decode);
    forall k | 0 <= k < |b|
      ensures tail[k] == second[k]
    {
      DeliverBackAt(a, b, clock, decode, k);
    }
  }

  lemma DeliverBackAt(a: seq<Frame>, b: seq<Frame>, clock: nat -> nat, decode: (Frame, nat) -> Reading, k: nat)
    requires k < |b|
    ensures Deliver(a + b, clock, decode)[|a| + k] == Deliver(b, i => clock(|a| + i), decode)[k]
  {
    var later: nat -> nat := i => clock(|a| + i);
    assert (a + b)[|a| + k] == b[k];
    assert Deliver(b, later, decode)[k] == decode(b[k], clock(|a| + k));
  }
}
