// Storing, copying and deleting the data of parts.
module PartStore {
  import opened Common
  import opened DataPath

  ghost function Bytes(db: Chunks, row: PartRow): seq<Byte>
    requires Has(db, row.chunks)
  {
    if row.inline != [] then row.inline else Flatten(Pieces(db, row.chunks))
  }

  // Nothing that was there is changed or gone.
  ghost predicate Extends(before: Chunks, now: Chunks) {
    forall c :: c in before ==> c in now && now[c] == before[c]
  }

  ghost predicate OwnChunk(before: Chunks, now: Chunks, ids: seq<ChunkId>, c: ChunkId) {
    && (c in now <==> c in before || c in ids)
    && (c in before ==> c !in ids && now[c] == before[c])
  }

  // These chunks were added and nothing else changed: no two rows share a chunk.
  ghost predicate OwnChunks(before: Chunks, now: Chunks, ids: seq<ChunkId>) {
    && (forall c {:trigger OwnChunk(before, now, ids, c)} :: OwnChunk(before, now, ids, c))
    && (forall i, j :: 0 <= i < j < |ids| ==> ids[i] != ids[j])
    && Has(now, ids)
  }

  lemma ExtendsBytes(before: Chunks, now: Chunks, row: PartRow)
    requires Extends(before, now) && Has(before, row.chunks)
    ensures Has(now, row.chunks) && Bytes(now, row) == Bytes(before, row)
  {
    assert Pieces(now, row.chunks) == Pieces(before, row.chunks);
  }

  // One more chunk under a new id.
  lemma AddChunk(before: Chunks, now: Chunks, ids: seq<ChunkId>, id: ChunkId, data: seq<Byte>)
    requires OwnChunks(before, now, ids) && id !in now
    ensures OwnChunks(before, now[id := data], ids + [id])
    ensures Pieces(now[id := data], ids + [id]) == Pieces(now, ids) + [data]
  {
    var after, more := now[id := data], ids + [id];
    forall c ensures OwnChunk(before, after, more, c) { assert OwnChunk(before, now, ids, c); }
    assert forall c :: c in more <==> c in ids || c == id;
  }

  lemma RemoveOwn(before: Chunks, now: Chunks, ids: seq<ChunkId>)
    requires OwnChunks(before, now, ids)
    ensures now - (set c | c in ids) == before
  {
    forall c ensures c in before <==> c in now && c !in ids { assert OwnChunk(before, now, ids, c); }
    forall c | c in before ensures before[c] == now[c] { assert OwnChunk(before, now, ids, c); }
  }

  lemma OwnExtends(before: Chunks, now: Chunks, ids: seq<ChunkId>)
    requires OwnChunks(before, now, ids)
    ensures Extends(before, now)
  {
    forall c | c in before ensures c in now && now[c] == before[c] { assert OwnChunk(before, now, ids, c); }
  }

  // A part and what was copied of it, each with its own chunks.
  ghost predicate SameData(before: Chunks, source: PartRow, now: Chunks, row: PartRow) {
    && Has(before, source.chunks) && Has(now, row.chunks)
    && row.num == source.num && row.size == source.size && Bytes(now, row) == Bytes(before, source)
  }

  // A row as the writers leave it; its chunks may be gone by now.
  predicate Issued(row: PartRow, nextId: ChunkId) {
    (row.inline != [] ==> row.chunks == []) && forall c :: c in row.chunks ==> c < nextId
  }

  ghost predicate OnlyNew(before: Chunks, now: Chunks, nextId: ChunkId) {
    forall c :: c in now ==> c in before || c >= nextId
  }

  ghost predicate Apart(a: PartRow, b: PartRow) {
    forall c :: c in a.chunks ==> c !in b.chunks
  }

  // Rows copied so far, each with chunks of its own.
  ghost predicate Copies(before: Chunks, now: Chunks, sources: seq<PartRow>, rows: seq<PartRow>) {
    && |rows| <= |sources|
    && (forall i :: 0 <= i < |rows| ==> SameData(before, sources[i], now, rows[i]))
    && (forall i, c :: 0 <= i < |rows| && c in rows[i].chunks ==> c !in before)
    && (forall i, j :: 0 <= i < j < |rows| ==> Apart(rows[i], rows[j]))
  }

  lemma CopiesStay(before: Chunks, now: Chunks, later: Chunks, sources: seq<PartRow>, rows: seq<PartRow>)
    requires Copies(before, now, sources, rows) && Extends(now, later)
    ensures Copies(before, later, sources, rows)
  {
    forall i | 0 <= i < |rows| ensures SameData(before, sources[i], later, rows[i]) {
      ExtendsBytes(now, later, rows[i]);
    }
  }

  lemma OneCopyMore(before: Chunks, now: Chunks, later: Chunks, sources: seq<PartRow>, rows: seq<PartRow>,
                    row: PartRow)
    requires Copies(before, now, sources, rows) && Extends(before, now) && |rows| < |sources|
    requires Has(before, sources[|rows|].chunks) && SameData(now, sources[|rows|], later, row)
    requires OwnChunks(now, later, row.chunks)
    ensures Extends(before, later) && Copies(before, later, sources, rows + [row])
  {
    OwnExtends(now, later, row.chunks);
    CopiesStay(before, now, later, sources, rows);
    ExtendsBytes(before, now, sources[|rows|]);
    forall c | c in row.chunks ensures c !in now { assert OwnChunk(now, later, row.chunks, c); }
    forall i | 0 <= i < |rows| ensures Apart(rows[i], row) {
      assert SameData(before, sources[i], now, rows[i]);
    }
  }

  // The chunks there are when a body half written is written to its end.
  ghost function Grown(done: seq<seq<Byte>>, rest: seq<Byte>, left: nat, max: nat): seq<seq<Byte>>
    requires max > 0
    decreases left
  {
    var m := Min(max, left);
    match Buffer(rest, m)
    case None => done
    case Some(buffer) => Grown(done + [buffer], Drop(rest, m), left - |Take(rest, m)|, max)
  }

  lemma {:induction false} GrownIsCut(done: seq<seq<Byte>>, rest: seq<Byte>, left: nat, max: nat)
    requires max > 0
    ensures Grown(done, rest, left, max) == done + Cut(rest, left, max)
    decreases left
  {
    var m := Min(max, left);
    match Buffer(rest, m)
    case None => assert done + [] == done;
    case Some(buffer) =>
      var more := Cut(Drop(rest, m), left - |Take(rest, m)|, max);
      GrownIsCut(done + [buffer], Drop(rest, m), left - |Take(rest, m)|, max);
      OneChunkMore(done, buffer, more);
  }

  lemma OneChunkMore(done: seq<seq<Byte>>, buffer: seq<Byte>, more: seq<seq<Byte>>)
    ensures done + ([buffer] + more) == done + [buffer] + more
  {
  }

  lemma GrownFromStart(body: seq<Byte>, room: nat, max: nat)
    requires max > 0
    ensures Grown([], body, room, max) == Cut(body, room, max)
  {
    GrownIsCut([], body, room, max);
    assert [] + Cut(body, room, max) == Cut(body, room, max);
  }

  // What a part keeps of a body: the declared part, and the padding of the last buffer.
  ghost function Stored(body: seq<Byte>, size: nat, inlineMax: nat, max: nat): seq<Byte>
    requires max > 0
  {
    Take(body, size) + Zeros(Padding(|body|, size, if 0 < size <= inlineMax then size else max))
  }

  lemma StoredInline(body: seq<Byte>, size: nat, inlineMax: nat, max: nat)
    requires max > 0 && size <= inlineMax
    ensures Stored(body, size, inlineMax, max)
            == if body == [] || size == 0 then []
               else Take(body, size) + Zeros(size - |Take(body, size)|)
  {
  }

  // What was not kept inline is kept in chunks.
  lemma StoredInChunks(body: seq<Byte>, size: nat, inlineMax: nat, max: nat)
    requires max > 0 && (size > inlineMax || Take(body, size) == [])
    ensures Flatten(Cut(body, size, max)) == Stored(body, size, inlineMax, max)
  {
    CutStores(body, size, max);
  }

  // A part holds exactly the declared bytes when the body is whole, or ends at a full buffer.
  lemma StoredExactly(body: seq<Byte>, size: nat, inlineMax: nat, max: nat)
    requires max > 0
    ensures Stored(body, size, inlineMax, max) == Take(body, size)
            <==> |body| >= size || |body| % (if 0 < size <= inlineMax then size else max) == 0
  {
    NoPadding(|body|, size, if 0 < size <= inlineMax then size else max);
    assert Zeros(0) == [];
  }

  // One byte of two that were declared, and a zero.
  lemma PaddedByte(b: Byte)
    ensures Stored([b], 2, 2, 1) == [b, 0]
  {
    assert Take([b], 2) == [b];
  }

  // Is a body of len bytes, which may break off where it ends, reported stored?
  predicate Stores(len: nat, broken: bool, size: nat, inlineMax: nat) { !(broken && len < size <= inlineMax) }

  class ChunkDb {
    var chunks: Chunks
    var nextId: ChunkId

    // bson.NewObjectId has not handed out nextId or anything above yet.
    ghost predicate Valid()
      reads this
    {
      forall c :: c in chunks ==> c < nextId
    }

    constructor ()
      ensures Valid() && chunks == map[]
    {
      chunks, nextId := map[], 0;
    }

    method Insert(data: seq<Byte>) returns (c: ChunkId)
      requires Valid()
      modifies this
      ensures Valid() && c !in old(chunks) && chunks == old(chunks)[c := data]
      ensures c == old(nextId) && nextId == c + 1
    {
      c := nextId;
      chunks := chunks[c := data];
      nextId := nextId + 1;
    }

    method DeleteChunks(ids: seq<ChunkId>)
      requires Valid()
      modifies this
      ensures Valid() && chunks == old(chunks) - set c | c in ids
    {
      for i := 0 to |ids|
        invariant Valid() && chunks == old(chunks) - set c | c in ids[..i]
      {
        chunks := chunks - {ids[i]};
        assert ids[..i + 1] == ids[..i] + [ids[i]];
      }
      assert ids[..|ids|] == ids;
    }

    // One more chunk of a part that is being written.
    method Append(ids: seq<ChunkId>, data: seq<Byte>, ghost before: Chunks) returns (more: seq<ChunkId>)
      requires Valid() && OwnChunks(before, chunks, ids)
      modifies this
      ensures Valid() && OwnChunks(before, chunks, more) && Pieces(chunks, more) == Pieces(old(chunks), ids) + [data]
      ensures more == ids + [old(nextId)] && nextId == old(nextId) + 1
    {
      AddChunk(before, chunks, ids, nextId, data);
      var c := Insert(data);
      more := ids + [c];
    }

    // The out: label of the writers.
    method Rollback(ids: seq<ChunkId>, ghost before: Chunks)
      requires Valid() && OwnChunks(before, chunks, ids)
      modifies this
      ensures Valid() && chunks == before
    {
      RemoveOwn(before, chunks, ids);
      DeleteChunks(ids);
    }

    // The chunks of what the reader still has. A failing read removes them again.
    method WriteChunks(cr: ChunkReader, max: nat) returns (ids: seq<ChunkId>, failed: bool)
      requires Valid() && cr.read <= cr.size && max > 0
      modifies this, cr, cr.r
      ensures Valid() && cr.read <= cr.size
      ensures failed == (cr.r.broken && |old(cr.r.rest)| < cr.size - old(cr.read))
      ensures failed ==> chunks == old(chunks)
      ensures !failed ==> OwnChunks(old(chunks), chunks, ids)
      ensures !failed ==> Pieces(chunks, ids) == Cut(old(cr.r.rest), cr.size - old(cr.read), max)
      ensures cr.read == old(cr.read) + |Take(old(cr.r.rest), cr.size - old(cr.read))|
    {
      ids := [];
      ghost var before, short := chunks, |cr.r.rest| - (cr.size - cr.read);
      ghost var full := Grown([], cr.r.rest, cr.size - cr.read, max);
      GrownFromStart(cr.r.rest, cr.size - cr.read, max);
      assert Pieces(chunks, ids) == [];
      while true
        invariant Valid() && cr.read <= cr.size && OwnChunks(before, chunks, ids)
        invariant |cr.r.rest| - (cr.size - cr.read) == short
        invariant Grown(Pieces(chunks, ids), cr.r.rest, cr.size - cr.read, max) == full
        decreases cr.size - cr.read
      {
        var data, broke := cr.Next(max);
        if broke {
          Rollback(ids, before);
          return ids, true;
        }
        if data.None? { return ids, false; }
        ids := Append(ids, data.value, before);
      }
    }

    // A small part is read into its row; an empty one is left to the chunks.
    method ReadInline(cr: ChunkReader, inlineMax: nat, ghost max: nat) returns (inline: seq<Byte>, broke: bool)
      requires cr.read == 0 && max > 0
      modifies cr, cr.r
      ensures cr.read == if cr.size <= inlineMax then |Take(old(cr.r.rest), cr.size)| else 0
      ensures broke <==> cr.r.broken && |old(cr.r.rest)| < cr.size <= inlineMax
      ensures !broke && inline != [] ==> inline == Stored(old(cr.r.rest), cr.size, inlineMax, max)
      ensures !broke && inline != [] ==> cr.size <= inlineMax
      ensures !broke && inline == [] ==> cr.r.rest == old(cr.r.rest) && cr.read == 0
      ensures !broke && inline == [] ==> cr.size > inlineMax || Take(cr.r.rest, cr.size) == []
    {
      inline, broke := [], false;
      if cr.size <= inlineMax {
        StoredInline(cr.r.rest, cr.size, inlineMax, max);
        var data;
        data, broke := cr.Next(cr.size);
        if data.Some? { inline := data.value; }
      }
    }

    // A part of a declared size, inline or in chunks. None when the body breaks off and the
    // part is inline; one in chunks is then reported stored, but left without data.
    method AddPart(num: nat, cr: ChunkReader, inlineMax: nat, max: nat) returns (row: Option<PartRow>)
      requires Valid() && cr.read == 0 && max > 0
      modifies this, cr, cr.r
      ensures Valid() && cr.read == |Take(old(cr.r.rest), cr.size)|
      ensures row.None? <==> cr.r.broken && |old(cr.r.rest)| < cr.size <= inlineMax
      ensures row.Some? <==> Stores(|old(cr.r.rest)|, cr.r.broken, cr.size, inlineMax)
      ensures row.None? ==> chunks == old(chunks)
      ensures row.Some? ==> Issued(row.value, nextId)
      ensures cr.r.broken && |old(cr.r.rest)| < cr.size && cr.size > inlineMax ==>
                row == Some(PartRow(num, cr.size, [], [])) && chunks == old(chunks)
      ensures !cr.r.broken || |old(cr.r.rest)| >= cr.size ==>
                && row.Some? && row.value.num == num && row.value.size == cr.size
                && OwnChunks(old(chunks), chunks, row.value.chunks)
                && Bytes(chunks, row.value) == Stored(old(cr.r.rest), cr.size, inlineMax, max)
    {
      ghost var body := cr.r.rest;
      var inline, failed := ReadInline(cr, inlineMax, max);
      if failed { return None; }
      if inline != [] { return Some(PartRow(num, cr.size, inline, [])); }
      var ids, broke := WriteChunks(cr, max);
      if broke { return Some(PartRow(num, cr.size, [], [])); }
      StoredInChunks(body, cr.size, inlineMax, max);
      return Some(PartRow(num, cr.size, [], ids));
    }

    // handlePutObject's check: a body that ends early is not kept. None also for the missing
    // Content-Length.
    method PutData(body: BodyReader, size: nat, inlineMax: nat, max: nat) returns (row: Option<PartRow>)
      requires Valid() && max > 0
      modifies this, body
      ensures Valid()
      ensures row.Some? <==> 0 < size <= |old(body.rest)|
      ensures row.None? ==> chunks == old(chunks)
      ensures row.Some? ==>
                && row.value.size == size && Issued(row.value, nextId)
                     && OwnChunks(old(chunks), chunks, row.value.chunks)
                && Bytes(chunks, row.value) == old(body.rest)[..size]
    {
      if size == 0 { return None; }
      var cr := new ChunkReader(size, body);
      row := AddPart(0, cr, inlineMax, max);
      if row.Some? && cr.read != size {
        Rollback(row.value.chunks, old(chunks));
        return None;
      }
    }

    // CopyChunks. The source's ids were handed out before; their chunks may be gone by now.
    method CopyChunks(source: seq<ChunkId>) returns (ids: seq<ChunkId>, ok: bool)
      requires Valid() && forall c :: c in source ==> c < nextId
      modifies this
      ensures Valid() && OwnChunks(old(chunks), chunks, ids) && old(nextId) <= nextId
      ensures forall c :: c in ids ==> c >= old(nextId)
      ensures ok <==> Has(old(chunks), source)
      ensures ok ==> Pieces(chunks, ids) == Pieces(old(chunks), source)
    {
      ids := [];
      for i := 0 to |source|
        invariant Valid() && OwnChunks(old(chunks), chunks, ids)
        invariant old(nextId) <= nextId && forall c :: c in ids ==> c >= old(nextId)
        invariant Has(old(chunks), source[..i]) && Pieces(chunks, ids) == Pieces(old(chunks), source[..i])
      {
        assert source[..i + 1] == source[..i] + [source[i]];
        assert source[i] in source && source[i] !in ids;
        assert OwnChunk(old(chunks), chunks, ids, source[i]);
        if source[i] !in chunks { return ids, false; }
        ids := Append(ids, chunks[source[i]], old(chunks));
      }
      assert source[..|source|] == source;
      return ids, true;
    }

    // CopyPart
    method CopyPart(source: PartRow) returns (row: Option<PartRow>)
      requires Valid() && Issued(source, nextId)
      modifies this
      ensures Valid() && old(nextId) <= nextId && Extends(old(chunks), chunks)
              && OnlyNew(old(chunks), chunks, old(nextId))
      ensures row.Some? <==> Has(old(chunks), source.chunks)
      ensures row.Some? ==>
              OwnChunks(old(chunks), chunks, row.value.chunks)
              && SameData(old(chunks), source, chunks, row.value)
    {
      if source.inline != [] { return Some(PartRow(source.num, source.size, source.inline, [])); }
      var ids, ok := CopyChunks(source.chunks);
      OwnExtends(old(chunks), chunks, ids);
      forall c | c in chunks && c !in old(chunks) ensures c >= old(nextId) {
        assert OwnChunk(old(chunks), chunks, ids, c);
      }
      if !ok { return None; }
      return Some(PartRow(source.num, source.size, [], ids));
    }

    // CopyObject's loop over the parts of the source: it fails when a chunk is gone; else every
    // part has a copy with the same data in chunks of its own.
    method CopyParts(sources: seq<PartRow>) returns (rows: seq<PartRow>, ok: bool)
      requires Valid() && forall i :: 0 <= i < |sources| ==> Issued(sources[i], nextId)
      modifies this
      ensures Valid() && Extends(old(chunks), chunks)
      ensures ok <==> forall i :: 0 <= i < |sources| ==> Has(old(chunks), sources[i].chunks)
      ensures ok ==> |rows| == |sources|
      ensures ok ==> forall i :: 0 <= i < |rows| ==> SameData(old(chunks), sources[i], chunks, rows[i])
      ensures ok ==> forall i, c :: 0 <= i < |rows| && c in rows[i].chunks ==> c !in old(chunks)
      ensures ok ==> forall i, j :: 0 <= i < j < |rows| ==> Apart(rows[i], rows[j])
    {
      rows := [];
      for i := 0 to |sources|
        invariant Valid() && Extends(old(chunks), chunks) && |rows| == i
        invariant old(nextId) <= nextId && OnlyNew(old(chunks), chunks, old(nextId))
        invariant forall k :: 0 <= k < i ==> Has(old(chunks), sources[k].chunks)
        invariant Copies(old(chunks), chunks, sources, rows)
      {
        ghost var before := chunks;
        if Has(old(chunks), sources[i].chunks) { ExtendsBytes(old(chunks), before, sources[i]); }
        var row := CopyPart(sources[i]);
        if row.None? { return rows, false; }
        OneCopyMore(old(chunks), before, chunks, sources, rows, row.value);
        rows := rows + [row.value];
      }
      return rows, true;
    }
  }
}
