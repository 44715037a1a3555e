// The TCP proxy's collector: a byte stream cut anywhere is put together into length-prefixed
// mongo frames, each shown to the pipeline and forwarded.
module Proxy {
  import opened Common

  newtype byte = x: int | 0 <= x < 256

  // What the pipeline decides about a request, from its bytes and its 16-byte header.
  type Verdict = seq<byte> -> bool

  // binary.LittleEndian.Uint32
  function Le32(s: seq<byte>): nat
    requires |s| >= 4
  {
    s[0] as int + 0x100 * (s[1] as int) + 0x1_0000 * (s[2] as int) + 0x100_0000 * (s[3] as int)
  }

  // decode_mongo_req answers only when the header and the announced length are there.
  predicate Complete(s: seq<byte>) { |s| >= 16 && |s| >= Le32(s) }

  // The bytes the decoder looks at: the frame, and the header even of a shorter frame.
  function Request(s: seq<byte>): seq<byte>
    requires Complete(s)
  {
    s[..if Le32(s) >= 16 then Le32(s) else 16]
  }

  // A frame the pipeline refuses closes the connection.
  predicate Rejected(ok: Verdict, s: seq<byte>) { Complete(s) && !ok(Request(s)) }

  // A frame of announced length zero is never cut off.
  predicate Stalled(ok: Verdict, s: seq<byte>) { Complete(s) && ok(Request(s)) && Le32(s) == 0 }

  predicate Ready(ok: Verdict, s: seq<byte>) { Complete(s) && ok(Request(s)) && Le32(s) > 0 }

  // The greedy split of a stream.
  function Frames(ok: Verdict, s: seq<byte>): seq<seq<byte>>
    decreases |s|
  {
    if Ready(ok, s) then [s[..Le32(s)]] + Frames(ok, s[Le32(s)..]) else []
  }

  function Rest(ok: Verdict, s: seq<byte>): seq<byte>
    decreases |s|
  {
    if Ready(ok, s) then Rest(ok, s[Le32(s)..]) else s
  }

  // Nothing is lost or reordered; every frame has the length it announces, and what is left
  // over does not begin with one more.
  lemma {:induction false} SplitIsExact(ok: Verdict, s: seq<byte>)
    ensures Flatten(Frames(ok, s)) + Rest(ok, s) == s
    ensures !Ready(ok, Rest(ok, s))
    ensures forall i :: 0 <= i < |Frames(ok, s)| ==> Frames(ok, s)[i] != []
    ensures forall i :: 0 <= i < |Frames(ok, s)| && |Frames(ok, s)[i]| >= 4
              ==> |Frames(ok, s)[i]| == Le32(Frames(ok, s)[i])
    decreases |s|
  {
    if Ready(ok, s) {
      var n := Le32(s);
      var f, more := s[..n], Frames(ok, s[n..]);
      SplitIsExact(ok, s[n..]);
      assert Frames(ok, s) == [f] + more && ([f] + more)[1..] == more;
      assert s == f + s[n..];
      assert n >= 4 ==> Le32(f) == Le32(s);
    }
  }

  lemma Prefixed(ok: Verdict, a: seq<byte>, b: seq<byte>)
    requires Complete(a)
    ensures Complete(a + b) && Le32(a + b) == Le32(a) && Request(a + b) == Request(a)
    ensures (a + b)[..Le32(a)] == a[..Le32(a)] && (a + b)[Le32(a)..] == a[Le32(a)..] + b
  {
  }

  lemma Shift<T>(a: seq<T>, b: seq<T>, c: seq<T>)
    ensures a + (b + c) == (a + b) + c
  {
  }

  // Cutting the stream anywhere makes no difference.
  lemma {:induction false} CutAnywhere(ok: Verdict, a: seq<byte>, b: seq<byte>)
    requires !Rejected(ok, Rest(ok, a))
    ensures Frames(ok, a + b) == Frames(ok, a) + Frames(ok, Rest(ok, a) + b)
    ensures Rest(ok, a + b) == Rest(ok, Rest(ok, a) + b)
    decreases |a|
  {
    if Ready(ok, a) {
      Prefixed(ok, a, b);
      CutAnywhere(ok, a[Le32(a)..], b);
      Shift([a[..Le32(a)]], Frames(ok, a[Le32(a)..]), Frames(ok, Rest(ok, a[Le32(a)..]) + b));
    }
  }

  // One frame of the split taken off the front.
  lemma OneMore(ok: Verdict, s: seq<byte>, sent: seq<byte>, seen: seq<seq<byte>>)
    requires Ready(ok, s)
    ensures var f, rest := s[..Le32(s)], s[Le32(s)..];
            && sent + Flatten(Frames(ok, s)) == (sent + f) + Flatten(Frames(ok, rest))
            && seen + Frames(ok, s) == (seen + [f]) + Frames(ok, rest)
            && Rest(ok, s) == Rest(ok, rest)
  {
    var f, more := s[..Le32(s)], Frames(ok, s[Le32(s)..]);
    FlattenCons(f, more);
    Shift(sent, f, Flatten(more));
    Shift(seen, [f], more);
  }

  lemma NoMore(ok: Verdict, s: seq<byte>, sent: seq<byte>, seen: seq<seq<byte>>)
    requires !Ready(ok, s)
    ensures sent + Flatten(Frames(ok, s)) == sent && seen + Frames(ok, s) == seen && Rest(ok, s) == s
  {
  }

  // --- what a sender frames is what is forwarded ---

  // A length as it is sent: four bytes, the least significant first.
  function Le32Bytes(n: nat): (s: seq<byte>)
    requires n < 0x1_0000_0000
    ensures |s| == 4
  {
    var second := n / 0x100;
    var third := second / 0x100;
    [(n % 0x100) as byte, (second % 0x100) as byte, (third % 0x100) as byte, (third / 0x100) as byte]
  }

  // A length that counts itself, and the body.
  function Framed(body: seq<byte>): (f: seq<byte>)
    requires |body| + 4 < 0x1_0000_0000
    ensures |f| == |body| + 4
  {
    Le32Bytes(|body| + 4) + body
  }

  ghost predicate Sendable(bodies: seq<seq<byte>>) {
    forall i :: 0 <= i < |bodies| ==> 12 <= |bodies[i]| < 0x1_0000_0000 - 4
  }

  function AllFramed(bodies: seq<seq<byte>>): (fs: seq<seq<byte>>)
    requires Sendable(bodies)
    ensures |fs| == |bodies| && forall i :: 0 <= i < |fs| ==> fs[i] == Framed(bodies[i])
  {
    seq(|bodies|, i requires 0 <= i < |bodies| => Framed(bodies[i]))
  }

  lemma Decodes(n: nat, behind: seq<byte>)
    requires n < 0x1_0000_0000
    ensures Le32(Le32Bytes(n) + behind) == n
  {
    var s := Le32Bytes(n) + behind;
    assert s[0] == Le32Bytes(n)[0] && s[1] == Le32Bytes(n)[1] && s[2] == Le32Bytes(n)[2] && s[3] == Le32Bytes(n)[3];
  }

  // A frame in front is cut off as soon as it and a header are there; the pipeline is shown the
  // frame, and at least the header.
  lemma FrameFirst(ok: Verdict, body: seq<byte>, behind: seq<byte>)
    requires |body| + 4 < 0x1_0000_0000 && |body| + 4 + |behind| >= 16
    requires ok((Framed(body) + behind)[..if |Framed(body)| >= 16 then |Framed(body)| else 16])
    ensures Frames(ok, Framed(body) + behind) == [Framed(body)] + Frames(ok, behind)
    ensures Rest(ok, Framed(body) + behind) == Rest(ok, behind)
  {
    FramedLength(body, behind);
    CutOff(ok, Framed(body), behind);
  }

  lemma FramedLength(body: seq<byte>, behind: seq<byte>)
    requires |body| + 4 < 0x1_0000_0000
    ensures Le32(Framed(body) + behind) == |body| + 4
  {
    Shift(Le32Bytes(|body| + 4), body, behind);
    Decodes(|body| + 4, body + behind);
  }

  lemma CutOff(ok: Verdict, f: seq<byte>, behind: seq<byte>)
    requires |f| + |behind| >= 16 && |f| >= 4 && Le32(f + behind) == |f|
    requires ok((f + behind)[..if |f| >= 16 then |f| else 16])
    ensures Frames(ok, f + behind) == [f] + Frames(ok, behind) && Rest(ok, f + behind) == Rest(ok, behind)
  {
    assert (f + behind)[..|f|] == f && (f + behind)[|f|..] == behind;
  }

  // Frames the pipeline accepts are split off one by one, whatever comes behind them.
  lemma {:induction false} FramesArrive(ok: Verdict, bodies: seq<seq<byte>>, behind: seq<byte>)
    requires Sendable(bodies)
    requires forall i :: 0 <= i < |bodies| ==> ok(Framed(bodies[i]))
    ensures Frames(ok, Flatten(AllFramed(bodies)) + behind) == AllFramed(bodies) + Frames(ok, behind)
    ensures Rest(ok, Flatten(AllFramed(bodies)) + behind) == Rest(ok, behind)
    decreases |bodies|
  {
    var fs := AllFramed(bodies);
    if bodies == [] {
      assert Flatten(fs) + behind == behind && fs + Frames(ok, behind) == Frames(ok, behind);
    } else {
      var rest := AllFramed(bodies[1..]);
      assert fs == [fs[0]] + rest;
      FlattenCons(fs[0], rest);
      Shift(fs[0], Flatten(rest), behind);
      assert (fs[0] + (Flatten(rest) + behind))[..|fs[0]|] == fs[0];
      FrameFirst(ok, bodies[0], Flatten(rest) + behind);
      FramesArrive(ok, bodies[1..], behind);
      Shift([fs[0]], rest, Frames(ok, behind));
    }
  }

  // So all of them go through, and of an incomplete one nothing does.
  lemma MessagesPass(ok: Verdict, bodies: seq<seq<byte>>, next: seq<byte>, cut: nat)
    requires Sendable(bodies) && forall i :: 0 <= i < |bodies| ==> ok(Framed(bodies[i]))
    requires 12 <= |next| < 0x1_0000_0000 - 4 && cut < |next| + 4
    ensures var stream := Flatten(AllFramed(bodies)) + Framed(next)[..cut];
            && Frames(ok, stream) == AllFramed(bodies) && Rest(ok, stream) == Framed(next)[..cut]
            && Flatten(Frames(ok, stream)) == Flatten(AllFramed(bodies))
  {
    var part := Framed(next)[..cut];
    FramesArrive(ok, bodies, part);
    if cut >= 4 {
      Decodes(|next| + 4, next);
      assert forall k :: 0 <= k < 4 ==> part[k] == Framed(next)[k];
    }
    assert Frames(ok, part) == [];
    assert AllFramed(bodies) + [] == AllFramed(bodies);
  }

  // A header alone: sixteen bytes that announce sixteen.
  lemma SixteenBytesPass(ok: Verdict)
    requires forall r :: ok(r)
    ensures var f: seq<byte> := [16, 0, 0, 0, 0, 0, 0, 0, 0, 0, 0, 0, 0, 0, 0, 0];
            Frames(ok, f) == [f] && Rest(ok, f) == []
  {
    var f: seq<byte> := [16, 0, 0, 0, 0, 0, 0, 0, 0, 0, 0, 0, 0, 0, 0, 0];
    assert Le32(f) == 16 && f[..16] == f && f[16..] == [];
    assert Frames(ok, []) == [];
  }

  // --- when a connection is blocked ---

  // Nothing that comes is ever forwarded any more.
  ghost predicate Blocked(ok: Verdict, s: seq<byte>) {
    forall b :: Frames(ok, s + b) == Frames(ok, s)
  }

  // The header in front announces length zero; it need not be complete.
  predicate AnnouncesZero(rest: seq<byte>) { |rest| >= 4 && Le32(rest) == 0 }

  // What may come in front of a rest to make a frame of it: the bytes of the length that are
  // missing, not zero, and then as many bytes as it announces.
  function Completion(rest: seq<byte>): seq<byte> {
    var len := if |rest| < 4 then seq(4 - |rest|, _ => 1) else [];
    len + seq(if Le32(rest + len) >= 16 then Le32(rest + len) else 16, _ => 0)
  }

  lemma Completes(rest: seq<byte>)
    requires !AnnouncesZero(rest)
    ensures Complete(rest + Completion(rest)) && Le32(rest + Completion(rest)) > 0
  {
    var len := if |rest| < 4 then seq(4 - |rest|, _ => 1) else [];
    var head := rest + len;
    assert |rest| < 4 ==> head[3] == 1;
    var all := rest + Completion(rest);
    assert all[..4] == head[..4];
    assert forall k :: 0 <= k < 4 ==> all[k] == head[k];
  }

  // As long as the pipeline refuses nothing, a connection is blocked exactly when the bytes in
  // front announce a frame of length zero.
  lemma ZeroFrameBlocks(ok: Verdict, s: seq<byte>)
    requires forall r :: ok(r)
    ensures Blocked(ok, s) <==> AnnouncesZero(Rest(ok, s))
  {
    var rest := Rest(ok, s);
    if AnnouncesZero(rest) {
      forall b ensures Frames(ok, s + b) == Frames(ok, s) {
        CutAnywhere(ok, s, b);
        assert forall k :: 0 <= k < 4 ==> (rest + b)[k] == rest[k];
        assert Frames(ok, s) + [] == Frames(ok, s);
      }
    } else {
      var b := Completion(rest);
      Completes(rest);
      CutAnywhere(ok, s, b);
      assert Ready(ok, rest + b);
      assert |Frames(ok, s + b)| > |Frames(ok, s)|;
    }
  }

  // The pipeline sees a complete header that announces zero again with every read.
  lemma ZeroFrameStalls(ok: Verdict, s: seq<byte>, b: seq<byte>)
    requires Stalled(ok, Rest(ok, s))
    ensures Rest(ok, s + b) == Rest(ok, s) + b && Stalled(ok, Rest(ok, s + b))
  {
    CutAnywhere(ok, s, b);
    Prefixed(ok, Rest(ok, s), b);
  }

  // Four zero bytes are enough.
  lemma FourZeroBytesBlock(ok: Verdict)
    requires forall r :: ok(r)
    ensures Blocked(ok, [0, 0, 0, 0])
  {
    var s: seq<byte> := [0, 0, 0, 0];
    assert Rest(ok, s) == s;
    ZeroFrameBlocks(ok, s);
  }

  // --- what the pipeline sees ---

  // The frames; then, over and over, what stands in front and is complete but not cut off.
  ghost predicate SeenOf(ok: Verdict, seen: seq<seq<byte>>, stream: seq<byte>) {
    Frames(ok, stream) <= seen && (|seen| == |Frames(ok, stream)| <==> !Complete(Rest(ok, stream)))
  }

  function InFront(ok: Verdict, rest: seq<byte>): seq<seq<byte>> {
    if Complete(rest) then [rest[..Le32(rest)]] else []
  }

  lemma SeenMore(ok: Verdict, seen: seq<seq<byte>>, a: seq<byte>, b: seq<byte>)
    requires !Rejected(ok, Rest(ok, a)) && SeenOf(ok, seen, a)
    ensures var all := Rest(ok, a) + b; SeenOf(ok, seen + Frames(ok, all) + InFront(ok, Rest(ok, all)), a + b)
  {
    CutAnywhere(ok, a, b);
    SplitIsExact(ok, a);
    SplitIsExact(ok, Rest(ok, a) + b);
    var rest := Rest(ok, a);
    if Complete(rest) {
      Prefixed(ok, rest, b);
      assert Frames(ok, rest + b) == [];
    } else {
      assert seen == Frames(ok, a);
    }
  }

  // --- the connection ---

  class Target {
    var sent: seq<byte>

    // TCPConn.Write takes some of it.
    method Write(data: seq<byte>) returns (w: nat)
      requires data != []
      modifies this
      ensures 1 <= w <= |data| && sent == old(sent) + data[..w]
    {
      w :| 1 <= w <= |data|;
      sent := sent + data[..w];
    }

    // sender.dataReady writes until drained.
    method DataReady(data: seq<byte>)
      requires data != []
      modifies this
      ensures sent == old(sent) + data
    {
      var left := data;
      while true
        invariant left != [] && sent + left == old(sent) + data
        decreases |left|
      {
        var w := Write(left);
        assert left == left[..w] + left[w..];
        left := left[w..];
        if |left| == 0 { return; }
      }
    }
  }

  // seen is the history of requests the pipeline ran on.
  class Collector {
    var collected: seq<byte>
    ghost var seen: seq<seq<byte>>
    const to: Target
    const ok: Verdict

    constructor (to: Target, ok: Verdict)
      ensures collected == [] && seen == [] && this.to == to && this.ok == ok
    {
      this.collected, this.seen, this.to, this.ok := [], [], to, ok;
    }

    // decode_mongo_req and the pipeline: the length of the frame; 0 for "not yet".
    method Try(data: seq<byte>) returns (cl: nat, err: bool)
      modifies this`seen
      ensures cl == (if Ready(ok, data) then Le32(data) else 0) && err == Rejected(ok, data)
      ensures seen == old(seen) + if Complete(data) then [data[..Le32(data)]] else []
    {
      if |data| < 16 { return 0, false; }
      var rlen := Le32(data);
      if |data| < rlen { return 0, false; }
      seen := seen + [data[..rlen]];
      if !ok(Request(data)) { return 0, true; }
      return rlen, false;
    }

    // collector.dataReady
    method DataReady(data: seq<byte>) returns (err: bool)
      modifies this`collected, this`seen, to
      ensures var all := old(collected) + data;
              && to.sent == old(to.sent) + Flatten(Frames(ok, all))
              && collected == Rest(ok, all) && err == Rejected(ok, Rest(ok, all))
              && seen == old(seen) + Frames(ok, all) + InFront(ok, Rest(ok, all))
    {
      collected := collected + data;
      ghost var all, sent0, seen0 := collected, to.sent, seen;
      while true
        invariant to.sent + Flatten(Frames(ok, collected)) == sent0 + Flatten(Frames(ok, all))
        invariant seen + Frames(ok, collected) == seen0 + Frames(ok, all)
        invariant Rest(ok, collected) == Rest(ok, all)
        decreases |collected|
      {
        if Ready(ok, collected) {
          OneMore(ok, collected, to.sent, seen);
        } else {
          NoMore(ok, collected, to.sent, seen);
        }
        var cl, e := Try(collected);
        if cl == 0 { return e; }
        var cons := collected[..cl];
        collected := collected[cl..];
        to.DataReady(cons);
      }
    }

    // forward: one dataReady a read, until one fails. Whatever the reads were, what has been
    // forwarded and what is still held are the split of all the bytes; and the pipeline saw
    // each frame once and in order, and nothing else unless a frame of length zero, or one
    // that is refused, stands in front.
    method Forward(pieces: seq<seq<byte>>) returns (n: nat, err: bool)
      requires collected == [] && seen == [] && to.sent == []
      modifies this`collected, this`seen, to
      ensures n <= |pieces| && (!err ==> n == |pieces|)
      ensures var stream := Flatten(pieces[..n]);
              && to.sent == Flatten(Frames(ok, stream)) && collected == Rest(ok, stream)
              && to.sent + collected == stream
              && err == Rejected(ok, Rest(ok, stream))
              && SeenOf(ok, seen, stream)
    {
      n, err := 0, false;
      while n < |pieces|
        invariant n <= |pieces| && !err && !Rejected(ok, collected)
        invariant to.sent == Flatten(Frames(ok, Flatten(pieces[..n]))) && collected == Rest(ok, Flatten(pieces[..n]))
        invariant SeenOf(ok, seen, Flatten(pieces[..n]))
      {
        ghost var stream := Flatten(pieces[..n]);
        OneRead(ok, pieces, n);
        SeenMore(ok, seen, stream, pieces[n]);
        err := DataReady(pieces[n]);
        n := n + 1;
        if err { break; }
      }
      SplitIsExact(ok, Flatten(pieces[..n]));
    }
  }

  lemma OneRead(ok: Verdict, pieces: seq<seq<byte>>, n: nat)
    requires n < |pieces| && !Rejected(ok, Rest(ok, Flatten(pieces[..n])))
    ensures var stream := Flatten(pieces[..n]);
            && Flatten(pieces[..n + 1]) == stream + pieces[n]
            && Flatten(Frames(ok, stream + pieces[n]))
                 == Flatten(Frames(ok, stream)) + Flatten(Frames(ok, Rest(ok, stream) + pieces[n]))
            && Rest(ok, stream + pieces[n]) == Rest(ok, Rest(ok, stream) + pieces[n])
  {
    var stream := Flatten(pieces[..n]);
    CutAnywhere(ok, stream, pieces[n]);
    FlattenConcat(Frames(ok, stream), Frames(ok, Rest(ok, stream) + pieces[n]));
    FlattenConcat(pieces[..n], [pieces[n]]);
    assert pieces[..n + 1] == pieces[..n] + [pieces[n]] && [pieces[n]][1..] == [];
  }
}
