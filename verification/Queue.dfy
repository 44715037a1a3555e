// Messages over a packet socket: cut into packets of one size, the last one shorter.
module Queue {
  import opened Common

  type Byte = bv8

  const CHUNK := 1024

  predicate Short(packet: seq<Byte>) { |packet| < CHUNK }

  // What SendBytes puts on the wire in all: the length is never a multiple of the packet size.
  function Padded(msg: seq<Byte>): seq<Byte> { if |msg| % CHUNK == 0 then msg + [0] else msg }

  // The packets of a message.
  function Packets(wire: seq<Byte>): seq<seq<Byte>> {
    if |wire| >= CHUNK then [wire[..CHUNK]] + Packets(wire[CHUNK..]) else if |wire| > 0 then [wire] else []
  }

  // What the receiver makes of a last packet.
  function Trim(packet: seq<Byte>): seq<Byte> {
    if packet != [] && packet[|packet| - 1] == 0 then packet[..|packet| - 1] else packet
  }

  // One message off the front of a stream of packets, and what is behind it; nothing while
  // its last packet has not come. A read of no bytes is the end of the stream.
  function Message(stream: seq<seq<Byte>>): Option<(seq<Byte>, seq<seq<Byte>>)> {
    if stream == [] || stream[0] == [] then None
    else if Short(stream[0]) then Some((Trim(stream[0]), stream[1..]))
    else
      match Message(stream[1..])
      case None => None
      case Some(m) => Some((stream[0] + m.0, m.1))
  }

  // --- one message ---

  lemma {:induction false} PacketsOf(wire: seq<Byte>)
    ensures Flatten(Packets(wire)) == wire
    ensures forall i :: 0 <= i < |Packets(wire)| ==> 0 < |Packets(wire)[i]| <= 1024
    ensures forall i :: 0 <= i < |Packets(wire)| - 1 ==> |Packets(wire)[i]| == 1024
    decreases |wire|
  {
    if |wire| >= CHUNK {
      PacketsOf(wire[CHUNK..]);
      assert ([wire[..CHUNK]] + Packets(wire[CHUNK..]))[1..] == Packets(wire[CHUNK..]);
    } else if |wire| > 0 {
      assert [wire][1..] == [];
    }
  }

  lemma ModDown(n: nat)
    requires n >= CHUNK
    ensures (n - CHUNK) % CHUNK == n % CHUNK
  {
  }

  // The receiver reads exactly the packets of one message, whatever follows them, and gets
  // the bytes sent, less a zero at their end.
  lemma {:induction false} MessageOfPackets(wire: seq<Byte>, more: seq<seq<Byte>>)
    requires |wire| % CHUNK != 0
    ensures Message(Packets(wire) + more) == Some((Trim(wire), more))
    decreases |wire|
  {
    var all := Packets(wire) + more;
    if |wire| >= CHUNK {
      ModDown(|wire|);
      MessageOfPackets(wire[CHUNK..], more);
      assert all[1..] == Packets(wire[CHUNK..]) + more;
      assert wire == wire[..CHUNK] + wire[CHUNK..];
      assert wire[..CHUNK] + Trim(wire[CHUNK..]) == Trim(wire);
    } else {
      assert all[1..] == more;
    }
  }

  // A message arrives as it was sent exactly when it does not end in a zero byte, or its
  // length is a multiple of the packet size; else it arrives without its last byte.
  lemma RoundTrip(msg: seq<Byte>, more: seq<seq<Byte>>)
    ensures Message(Packets(Padded(msg)) + more).Some? && Message(Packets(Padded(msg)) + more).value.1 == more
    ensures Message(Packets(Padded(msg)) + more).value.0 == msg
            <==> msg == [] || msg[|msg| - 1] != 0 || |msg| % 1024 == 0
    ensures Message(Packets(Padded(msg)) + more).value.0 != msg ==>
              msg != [] && Message(Packets(Padded(msg)) + more).value.0 == msg[..|msg| - 1]
  {
    PaddedLength(msg);
    MessageOfPackets(Padded(msg), more);
    if |msg| % CHUNK == 0 { assert Trim(msg + [0]) == msg; }
  }

  // A message of one zero byte arrives empty.
  lemma ZeroIsLost(more: seq<seq<Byte>>)
    ensures Message(Packets(Padded([0])) + more) == Some(([], more))
  {
    var wire := Padded([0]);
    assert wire == [0];
    PaddedLength([0]);
    MessageOfPackets(wire, more);
    assert Trim([0]) == [];
  }

  lemma PaddedLength(msg: seq<Byte>)
    ensures |Padded(msg)| % CHUNK != 0
  {
  }

  // --- many messages ---

  predicate Arrives(msg: seq<Byte>) { msg == [] || msg[|msg| - 1] != 0 || |msg| % CHUNK == 0 }

  function Sent(msgs: seq<seq<Byte>>): seq<seq<Byte>> {
    if msgs == [] then [] else Packets(Padded(msgs[0])) + Sent(msgs[1..])
  }

  // All the messages of a stream of packets.
  function Messages(stream: seq<seq<Byte>>): seq<seq<Byte>>
    decreases |stream|
  {
    match Message(stream)
    case None => []
    case Some(m) => MessageShortens(stream); [m.0] + Messages(m.1)
  }

  lemma {:induction false} MessageShortens(stream: seq<seq<Byte>>)
    requires Message(stream).Some?
    ensures |Message(stream).value.1| < |stream|
  {
    if !Short(stream[0]) { MessageShortens(stream[1..]); }
  }

  ghost predicate AllArrive(msgs: seq<seq<Byte>>) {
    forall i :: 0 <= i < |msgs| ==> Arrives(msgs[i])
  }

  lemma AllArriveCons(msgs: seq<seq<Byte>>)
    requires msgs != []
    ensures AllArrive(msgs) <==> Arrives(msgs[0]) && AllArrive(msgs[1..])
  {
    assert forall i :: 1 <= i < |msgs| ==> msgs[i] == msgs[1..][i - 1];
  }

  lemma SameCons(x: seq<Byte>, xs: seq<seq<Byte>>, ys: seq<seq<Byte>>)
    requires ys != []
    ensures [x] + xs == ys <==> x == ys[0] && xs == ys[1..]
  {
    assert ([x] + xs)[0] == x && ([x] + xs)[1..] == xs;
    assert ys == [ys[0]] + ys[1..];
  }

  // A sequence of messages comes out as it went in exactly when each of them arrives.
  lemma {:induction false} SequenceRoundTrip(msgs: seq<seq<Byte>>)
    ensures |Messages(Sent(msgs))| == |msgs|
    ensures Messages(Sent(msgs)) == msgs <==> AllArrive(msgs)
  {
    if msgs != [] {
      SequenceRoundTrip(msgs[1..]);
      RoundTrip(msgs[0], Sent(msgs[1..]));
      SameCons(Message(Sent(msgs)).value.0, Messages(Sent(msgs[1..])), msgs);
      AllArriveCons(msgs);
    }
  }

  // --- the code ---

  method Split(buf: seq<Byte>, cs: nat) returns (chunks: seq<seq<Byte>>)
    requires cs == CHUNK
    ensures chunks == Packets(buf)
  {
    var left := buf;
    chunks := [];
    assert [] + Packets(buf) == Packets(buf);
    while |left| >= cs
      invariant chunks + Packets(left) == Packets(buf)
      decreases |left|
    {
      assert chunks + ([left[..cs]] + Packets(left[cs..])) == chunks + [left[..cs]] + Packets(left[cs..]);
      chunks := chunks + [left[..cs]];
      left := left[cs..];
    }
    if |left| > 0 { chunks := chunks + [left]; } else { assert chunks + [] == chunks; }
  }

  // A SOCK_SEQPACKET pair keeps packets whole and in order.
  class Socket {
    var packets: seq<seq<Byte>>

    constructor ()
      ensures packets == []
    {
      packets := [];
    }

    method SendBytes(bts: seq<Byte>)
      modifies this
      ensures packets == old(packets) + Packets(Padded(bts))
    {
      var wire := bts;
      if |bts| % CHUNK == 0 { wire := wire + [0]; }
      var chunks := Split(wire, CHUNK);
      for i := 0 to |chunks|
        invariant packets == old(packets) + chunks[..i]
      {
        packets := packets + [chunks[i]];
        assert chunks[..i + 1] == chunks[..i] + [chunks[i]];
      }
      assert chunks[..|chunks|] == chunks;
    }

    // None when no whole message is there to be read: the source waits, or finds the end.
    method RecvBytes() returns (r: Option<seq<Byte>>)
      modifies this
      ensures Message(old(packets)).Some? ==>
                r == Some(Message(old(packets)).value.0) && packets == Message(old(packets)).value.1
      ensures Message(old(packets)).None? ==> r.None?
    {
      var msg := [];
      ghost var all := Message(packets);
      assert all.Some? ==> [] + all.value.0 == all.value.0;
      while true
        invariant match Message(packets)
                  case None => all.None?
                  case Some(m) => all == Some((msg + m.0, m.1))
        decreases |packets|
      {
        if packets == [] { return None; }
        var bts, l := packets[0], |packets[0]|;
        assert !Short(bts) && Message(packets[1..]).Some? ==>
                 msg + (bts + Message(packets[1..]).value.0) == msg + bts + Message(packets[1..]).value.0;
        packets := packets[1..];
        if l == 0 { return None; }
        if l < CHUNK {
          assert bts[..l] == bts;
          if bts[l - 1] == 0 { l := l - 1; }
          msg := msg + bts[..l];
          break;
        }
        msg := msg + bts;
      }
      return Some(msg);
    }
  }
}
