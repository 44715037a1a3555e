// The data of an object: a body cut into an inline part or chunks on the way in, and copied
// chunk by chunk.
module DataPath {
  import opened Common

  type Byte = bv8
  type ChunkId = nat
  type Chunks = map<ChunkId, seq<Byte>>

  // A part's row; rows with no inline data have the field omitted.
  datatype PartRow = PartRow(num: nat, size: nat, inline: seq<Byte>, chunks: seq<ChunkId>)

  function Zeros(n: nat): seq<Byte> { seq(n, _ => 0) }

  function Take(s: seq<Byte>, n: nat): seq<Byte> { if |s| <= n then s else s[..n] }

  function Drop(s: seq<Byte>, n: nat): seq<Byte> { if |s| <= n then [] else s[n..] }

  function Min(a: nat, b: nat): nat { if a <= b then a else b }

  function Pieces(db: Chunks, ids: seq<ChunkId>): seq<seq<Byte>>
    requires forall c :: c in ids ==> c in db
  {
    seq(|ids|, i requires 0 <= i < |ids| => db[ids[i]])
  }

  predicate Has(db: Chunks, ids: seq<ChunkId>) { forall c :: c in ids ==> c in db }

  // --- the request body ---

  datatype ReadError = NoError | Eof | Failed

  class BodyReader {
    var rest: seq<Byte>
    const broken: bool  // fails where a whole body would end

    constructor (body: seq<Byte>, broken: bool)
      ensures rest == body && this.broken == broken
    {
      rest := body;
      this.broken := broken;
    }

    // io.Reader: any positive number of bytes while there are some and there is room.
    method Read(room: nat) returns (got: seq<Byte>, err: ReadError)
      modifies this
      ensures old(rest) == got + rest && |got| <= room
      ensures got == [] <==> room == 0 || old(rest) == []
      ensures err == if got != [] || room == 0 then NoError else if broken then Failed else Eof
    {
      if room == 0 { return [], NoError; }
      if rest == [] { return [], if broken then Failed else Eof; }
      var n :| 1 <= n <= room && n <= |rest|;
      got, err := rest[..n], NoError;
      rest := rest[n..];
    }
  }

  // A buffer of m bytes: what the body still has, and zeros; None behind its end.
  function Buffer(rest: seq<Byte>, m: nat): Option<seq<Byte>> {
    var got := Take(rest, m);
    if got == [] then None else Some(got + Zeros(m - |got|))
  }

  // A buffer half full, and a read more.
  lemma ReadMore(body: seq<Byte>, off: nat, got: seq<Byte>, max: nat, was: seq<Byte>)
    requires off + |got| <= max && off + |got| <= |body| && body[off..off + |got|] == got
    requires was == body[..off] + Zeros(max - off)
    ensures was[..off] + got + was[off + |got|..] == body[..off + |got|] + Zeros(max - (off + |got|))
  {
  }

  // Nothing more comes, or nothing more fits.
  lemma ReadAll(body: seq<Byte>, off: nat, max: nat)
    requires off <= max && off <= |body| && (off == max || off == |body|)
    ensures Take(body, max) == body[..off] && Drop(body, max) == body[off..]
    ensures Buffer(body, max) == if off == 0 then None else Some(body[..off] + Zeros(max - off))
  {
  }

  class ChunkReader {
    const size: nat
    var read: nat
    const r: BodyReader

    constructor (size: nat, r: BodyReader)
      ensures this.size == size && read == 0 && this.r == r
    {
      this.size, this.read, this.r := size, 0, r;
    }

    // The next buffer: what the body still has, padded with zeros to the length asked for.
    method Next(limit: nat) returns (ret: Option<seq<Byte>>, failed: bool)
      requires read <= size
      modifies this, r
      ensures read <= size
      ensures var m := Min(limit, size - old(read));
              var got := Take(old(r.rest), m);
              && r.rest == Drop(old(r.rest), m) && read == old(read) + |got|
              && ret == Buffer(old(r.rest), m)
              && failed == (r.broken && |got| < m)
    {
      var max := limit;
      if max > size - read {
        max := size - read;
        if max == 0 { return None, false; }
      }
      var buf := new Byte[max](_ => 0);
      var off := 0;
      ghost var body := r.rest;
      while true
        invariant off <= max && off <= |body| && r.rest == body[off..]
        invariant read == old(read)
        invariant buf[..] == body[..off] + Zeros(max - off)
        decreases max - off
      {
        var got, err := r.Read(max - off);
        if got != [] {
          ghost var was := buf[..];
          ReadMore(body, off, got, max, was);
          forall i | 0 <= i < |got| { buf[off + i] := got[i]; }
          assert buf[..] == was[..off] + got + was[off + |got|..];
          off := off + |got|;
          continue;
        }
        ReadAll(body, off, max);
        read := read + off;
        ret := if off == 0 then None else Some(buf[..]);
        failed := err == Failed;
        return;
      }
    }
  }

  // --- what is stored of a body ---

  // The chunks a body of a declared size becomes.
  function Cut(body: seq<Byte>, room: nat, max: nat): seq<seq<Byte>>
    requires max > 0
    decreases room
  {
    var m := Min(max, room);
    var got := Take(body, m);
    if got == [] then [] else [got + Zeros(m - |got|)] + Cut(Drop(body, m), room - |got|, max)
  }

  // The zeros appended to a body that ends before its declared size: the last buffer is
  // stored whole.
  function Padding(len: nat, room: nat, max: nat): (n: nat)
    requires max > 0
    decreases room
  {
    if len >= room || len == 0 then 0
    else if len < max then Min(max, room) - len
    else Padding(len - max, room - max, max)
  }

  // Nothing is appended exactly when the body is whole or ends with a full buffer.
  lemma {:induction false} NoPadding(len: nat, room: nat, max: nat)
    requires max > 0
    ensures Padding(len, room, max) == 0 <==> len >= room || len % max == 0
    decreases room
  {
    if max <= len < room {
      NoPadding(len - max, room - max, max);
      ModStep(len, max);
    }
  }

  lemma ModStep(len: nat, max: nat)
    requires 0 < max <= len
    ensures (len - max) % max == len % max
  {
    assert len == max * (len / max) + len % max;
    assert len - max == max * (len / max - 1) + len % max;
    ModUnique(len - max, max, len / max - 1, len % max);
  }

  lemma ModUnique(x: int, d: int, q: int, r: int)
    requires d > 0 && 0 <= r < d && x == d * q + r
    ensures x % d == r
  {
    var k := x / d - q;
    assert x == d * (x / d) + x % d;
    assert d * k == r - x % d;
    assert k >= 1 ==> d * k >= d;
    assert k <= -1 ==> d * k <= -d;
  }

  // The body ends in the first buffer.
  lemma CutShort(body: seq<Byte>, room: nat, max: nat)
    requires max > 0 && 0 < |body| < max && |body| < room
    ensures Cut(body, room, max) == [body + Zeros(Min(max, room) - |body|)]
  {
    assert Drop(body, Min(max, room)) == [];
    assert Cut([], room - |body|, max) == [];
  }

  // The first buffer is the last and is filled.
  lemma CutLast(body: seq<Byte>, room: nat, max: nat)
    requires 0 < room < max && room <= |body|
    ensures Cut(body, room, max) == [body[..room] + Zeros(0)]
  {
    assert Cut(Drop(body, room), 0, max) == [];
    assert Take(body, room) == body[..room];
  }

  // The first buffer is filled and there may be more.
  lemma CutMore(body: seq<Byte>, room: nat, max: nat)
    requires 0 < max <= room && max <= |body|
    ensures Cut(body, room, max) == [body[..max] + Zeros(0)] + Cut(body[max..], room - max, max)
  {
    assert Drop(body, max) == body[max..];
    assert Take(body, max) == body[..max];
  }

  // What is stored is the declared part of the body, then the padding.
  lemma {:induction false} CutStores(body: seq<Byte>, room: nat, max: nat)
    requires max > 0
    ensures Flatten(Cut(body, room, max)) == Take(body, room) + Zeros(Padding(|body|, room, max))
    decreases room
  {
    if body == [] || room == 0 {
      CutNothing(body, room, max);
    } else if max <= |body| && max <= room {
      CutStores(body[max..], room - max, max);
      CutStoresMore(body, room, max, Padding(|body|, room, max));
    } else if |body| < room {
      CutShort(body, room, max);
      FlattenOne(body + Zeros(Min(max, room) - |body|));
    } else {
      CutLast(body, room, max);
      FlattenOne(body[..room] + Zeros(0));
    }
  }

  lemma CutNothing(body: seq<Byte>, room: nat, max: nat)
    requires max > 0 && (body == [] || room == 0)
    ensures Flatten(Cut(body, room, max)) == Take(body, room) + Zeros(Padding(|body|, room, max))
  {
    assert Cut(body, room, max) == [];
  }

  lemma CutStoresMore(body: seq<Byte>, room: nat, max: nat, pad: nat)
    requires 0 < max <= room && max <= |body|
    requires Flatten(Cut(body[max..], room - max, max)) == Take(body[max..], room - max) + Zeros(pad)
    ensures Flatten(Cut(body, room, max)) == Take(body, room) + Zeros(pad)
  {
    CutMore(body, room, max);
    FlattenCons(body[..max] + Zeros(0), Cut(body[max..], room - max, max));
    TakeMore(body, room, max);
    var a, b, c := body[..max], Take(body[max..], room - max), Zeros(pad);
    assert a + Zeros(0) == a;
    assert a + (b + c) == a + b + c;
  }

  lemma TakeMore(body: seq<Byte>, room: nat, max: nat)
    requires max <= room && max <= |body|
    ensures Take(body, room) == body[..max] + Take(body[max..], room - max)
  {
  }
}
