// The download loop: two nested loops over parts and chunks write the requested range.
module RangeRead {
  import opened Common
  import opened DataPath
  import opened PartStore
  import opened HttpRange

  predicate Readable(db: Chunks, row: PartRow) {
    row.inline != [] || (row.chunks != [] && Has(db, row.chunks))
  }

  ghost function RowBytes(db: Chunks, row: PartRow): seq<Byte> {
    if row.inline != [] then row.inline else if Has(db, row.chunks) then Flatten(Pieces(db, row.chunks)) else []
  }

  ghost function ObjectBytes(db: Chunks, rows: seq<PartRow>): seq<Byte> {
    if rows == [] then [] else RowBytes(db, rows[0]) + ObjectBytes(db, rows[1..])
  }

  ghost predicate WholePart(db: Chunks, row: PartRow) { Readable(db, row) && row.size == |RowBytes(db, row)| }

  // An object all of whose parts are readable and as long as their rows say.
  ghost predicate Whole(db: Chunks, rows: seq<PartRow>, size: nat) {
    && (forall i :: 0 <= i < |rows| ==> WholePart(db, rows[i]))
    && |ObjectBytes(db, rows)| == size
  }

  // --- what has been written when everything before pos has been passed ---

  ghost function Window(body: seq<Byte>, from: nat, to: nat, pos: nat): seq<Byte>
    requires from <= to <= |body|
  {
    if pos <= from then [] else body[from..if pos <= to then pos else to]
  }

  // rover follows the position until the range has been written; then it only stays behind.
  ghost predicate Follows(rover: int, pos: nat, to: nat) {
    rover == pos || (rover >= to && pos >= to)
  }

  ghost predicate Sent(body: seq<Byte>, from: nat, to: nat, pos: nat, rover: int, out: seq<Byte>) {
    && from <= to <= |body| && pos <= |body|
    && Follows(rover, pos, to) && out == Window(body, from, to, pos)
  }

  // The state of the loop over one object.
  datatype Progress = Progress(rover: int, downloaded: int, out: seq<Byte>)

  // What a callback is given: the range and where the loop stands; and, as long as the object
  // is whole, what was sent of its bytes.
  ghost predicate Stands(whole: bool, body: seq<Byte>, from: nat, to: int, pos: nat, s: Progress) {
    && (to < 0 || from <= to) && s.rover >= 0
    && (whole && to >= 0 ==> Sent(body, from, to, pos, s.rover, s.out))
  }

  // These bytes come next.
  ghost predicate NextBytes(body: seq<Byte>, pos: nat, bytes: seq<Byte>) {
    pos + |bytes| <= |body| && body[pos..pos + |bytes|] == bytes
  }

  // Nothing is sent for a range that ends before it begins, and all that is sent is counted.
  predicate Counted(to: int, s: Progress, t: Progress) {
    t.downloaded - s.downloaded == |t.out| - |s.out| && (to < 0 ==> t.out == s.out)
  }

  lemma WindowGrows(body: seq<Byte>, from: nat, to: nat, pos: nat, bytes: seq<Byte>)
    requires from <= to <= |body| && NextBytes(body, pos, bytes) && pos + |bytes| >= from && pos < to
    ensures var sOff := if from > pos then from - pos else 0;
            var eOff := if to <= pos + |bytes| then to - pos else |bytes|;
            && sOff <= eOff <= |bytes|
            && Window(body, from, to, pos + |bytes|) == Window(body, from, to, pos) + bytes[sOff..eOff]
  {
    var sOff := if from > pos then from - pos else 0;
    var eOff := if to <= pos + |bytes| then to - pos else |bytes|;
    SliceOfSlice(body, pos, |bytes|, sOff, eOff);
    if pos > from {
      Joined(body, from, pos, pos + eOff);
    } else {
      Nothing(body[from..pos + eOff]);
    }
  }

  lemma Nothing(s: seq<Byte>)
    ensures [] + s == s
  {
  }

  lemma Joined(body: seq<Byte>, a: nat, b: nat, c: nat)
    requires a <= b <= c <= |body|
    ensures body[a..b] + body[b..c] == body[a..c]
  {
  }

  lemma SliceOfSlice(body: seq<Byte>, pos: nat, len: nat, i: nat, j: nat)
    requires pos + len <= |body| && i <= j <= len
    ensures body[pos..pos + len][i..j] == body[pos + i..pos + j]
  {
    var l, r := body[pos..pos + len][i..j], body[pos + i..pos + j];
    assert |l| == |r| && forall k :: 0 <= k < |l| ==> l[k] == r[k];
  }

  // --- an object with holes, read from its beginning ---

  // The bytes of these chunks up to the first that is missing.
  ghost function UpToHole(db: Chunks, ids: seq<ChunkId>): seq<Byte> {
    if ids == [] || ids[0] !in db then [] else db[ids[0]] + UpToHole(db, ids[1..])
  }

  ghost function PartUpToHole(db: Chunks, row: PartRow): seq<Byte> {
    if row.inline != [] then row.inline else UpToHole(db, row.chunks)
  }

  // The bytes of an object up to the first chunk that is missing, or a part without any data.
  ghost function Reached(db: Chunks, rows: seq<PartRow>): seq<Byte> {
    if rows == [] then []
    else PartUpToHole(db, rows[0]) + (if Readable(db, rows[0]) then Reached(db, rows[1..]) else [])
  }

  // So much of it has been passed, and sent as far as the range goes.
  ghost predicate Plain(to: int, s: Progress, passed: seq<Byte>) {
    to >= 0 && s.out == Take(passed, to) && (s.rover == |passed| || (s.rover >= to && |passed| >= to))
  }

  // One more piece is passed over, or sent as far as the range goes.
  lemma PlainOver(to: int, s: Progress, passed: seq<Byte>, bytes: seq<Byte>)
    requires Plain(to, s, passed) && s.rover >= to
    ensures Plain(to, s.(rover := s.rover + |bytes|), passed + bytes)
  {
    PlainFull(to, passed, bytes);
  }

  lemma PlainSent(to: int, s: Progress, passed: seq<Byte>, bytes: seq<Byte>, downloaded: int)
    requires Plain(to, s, passed) && s.rover < to
    ensures var n := if to <= s.rover + |bytes| then to - s.rover else |bytes|;
            Plain(to, Progress(s.rover + n, downloaded, s.out + bytes[0..n]), passed + bytes)
  {
    PlainGrows(to, passed, bytes);
  }

  lemma PlainGrows(to: nat, passed: seq<Byte>, bytes: seq<Byte>)
    requires |passed| < to
    ensures Take(passed + bytes, to) == passed + bytes[..if to <= |passed| + |bytes| then to - |passed| else |bytes|]
  {
  }

  lemma PlainFull(to: nat, passed: seq<Byte>, bytes: seq<Byte>)
    requires |passed| >= to
    ensures Take(passed + bytes, to) == Take(passed, to)
  {
  }

  // The chunk callback. Its slice bounds hold even when the object is not whole.
  method SendChunk(bytes: seq<Byte>, from: nat, to: int, s: Progress, ghost whole: bool, ghost body: seq<Byte>,
                   ghost pos: nat, ghost passed: seq<Byte>)
    returns (t: Progress)
    requires Stands(whole, body, from, to, pos, s)
    requires whole && to >= 0 ==> NextBytes(body, pos, bytes)
    ensures Stands(whole, body, from, to, pos + |bytes|, t) && Counted(to, s, t)
    ensures from == 0 && Plain(to, s, passed) ==> Plain(to, t, passed + bytes)
  {
    ghost var plain := from == 0 && Plain(to, s, passed);
    if plain && s.rover >= to { PlainOver(to, s, passed, bytes); }
    var re := s.rover + |bytes|;
    if re < from { return s.(rover := re); }
    if s.rover >= to { return s.(rover := re); }
    var sOff := 0;
    if from > s.rover { sOff := from - s.rover; }
    var eOff := |bytes|;
    if to <= re { eOff := to - s.rover; }
    if whole && to >= 0 { WindowGrows(body, from, to, pos, bytes); }
    t := Progress(s.rover + eOff, s.downloaded + (eOff - sOff), s.out + bytes[sOff..eOff]);
    if plain { PlainSent(to, s, passed, bytes, t.downloaded); }
  }

  // Two pieces that come next come one after the other.
  lemma NextSplits(body: seq<Byte>, pos: nat, p: seq<Byte>, more: seq<Byte>)
    requires NextBytes(body, pos, p + more)
    ensures NextBytes(body, pos, p) && NextBytes(body, pos + |p|, more)
  {
    SliceOfSlice(body, pos, |p| + |more|, 0, |p|);
    SliceOfSlice(body, pos, |p| + |more|, |p|, |p| + |more|);
    assert (p + more)[0..|p|] == p && (p + more)[|p|..|p| + |more|] == more;
  }

  // The bytes of the chunks from the i-th on.
  ghost function Left(db: Chunks, ids: seq<ChunkId>, i: nat): seq<Byte>
    requires Has(db, ids) && i <= |ids|
    decreases |ids| - i
  {
    if i == |ids| then [] else db[ids[i]] + Left(db, ids, i + 1)
  }

  lemma {:induction false} LeftIsFlatten(db: Chunks, ids: seq<ChunkId>, i: nat)
    requires Has(db, ids) && i <= |ids|
    ensures Left(db, ids, i) == Flatten(Pieces(db, ids)[i..])
    decreases |ids| - i
  {
    if i < |ids| {
      LeftIsFlatten(db, ids, i + 1);
      assert Pieces(db, ids)[i..][1..] == Pieces(db, ids)[i + 1..];
    }
  }

  // The loop over the chunks of a whole part has come to the i-th.
  ghost predicate InChunks(db: Chunks, ids: seq<ChunkId>, i: nat, body: seq<Byte>, to: int, pos: nat, at: nat) {
    && Has(db, ids) && i <= |ids| && at + |Left(db, ids, i)| == pos + |Left(db, ids, 0)|
    && (to >= 0 ==> NextBytes(body, at, Left(db, ids, i)))
  }

  lemma NextChunk(db: Chunks, ids: seq<ChunkId>, i: nat, body: seq<Byte>, to: int, pos: nat, at: nat)
    requires InChunks(db, ids, i, body, to, pos, at) && i < |ids|
    ensures ids[i] in db && InChunks(db, ids, i + 1, body, to, pos, at + |db[ids[i]]|)
    ensures to >= 0 ==> NextBytes(body, at, db[ids[i]])
  {
    assert ids[i] in ids;
    if to >= 0 { NextSplits(body, at, db[ids[i]], Left(db, ids, i + 1)); }
  }

  // So much before the i-th chunk, which makes all with what is still to be read.
  ghost predicate Before(db: Chunks, ids: seq<ChunkId>, i: nat, sofar: seq<Byte>, all: seq<Byte>) {
    i <= |ids| && sofar + UpToHole(db, ids[i..]) == all
  }

  lemma BeforeFirst(db: Chunks, ids: seq<ChunkId>, passed: seq<Byte>)
    ensures Before(db, ids, 0, passed, passed + UpToHole(db, ids))
  {
    assert ids[0..] == ids;
  }

  lemma BeforeNext(db: Chunks, ids: seq<ChunkId>, i: nat, sofar: seq<Byte>, all: seq<Byte>)
    requires i < |ids| && Before(db, ids, i, sofar, all)
    ensures ids[i] in db ==> Before(db, ids, i + 1, sofar + db[ids[i]], all)
    ensures ids[i] !in db ==> sofar == all
  {
    assert ids[i..][0] == ids[i] && ids[i..][1..] == ids[i + 1..];
    if ids[i] in db { assert sofar + (db[ids[i]] + UpToHole(db, ids[i + 1..])) == all; }
  }

  lemma BeforeEnd(db: Chunks, ids: seq<ChunkId>, sofar: seq<Byte>, all: seq<Byte>)
    requires Before(db, ids, |ids|, sofar, all)
    ensures sofar == all
  {
    assert sofar + [] == sofar;
  }

  // The callback on one of a part's chunks.
  method SendNth(db: Chunks, ids: seq<ChunkId>, i: nat, from: nat, to: int, s: Progress, ghost whole: bool,
                 ghost body: seq<Byte>, ghost pos: nat, ghost at: nat, ghost sofar: seq<Byte>, ghost all: seq<Byte>)
    returns (t: Progress, ghost next: nat, ghost now: seq<Byte>)
    requires i < |ids| && ids[i] in db && Stands(whole, body, from, to, at, s)
    requires (whole ==> InChunks(db, ids, i, body, to, pos, at)) && Before(db, ids, i, sofar, all)
    ensures Stands(whole, body, from, to, next, t) && Counted(to, s, t)
    ensures (whole ==> InChunks(db, ids, i + 1, body, to, pos, next)) && Before(db, ids, i + 1, now, all)
    ensures from == 0 && Plain(to, s, sofar) ==> Plain(to, t, now)
  {
    if whole { NextChunk(db, ids, i, body, to, pos, at); }
    BeforeNext(db, ids, i, sofar, all);
    next, now := at + |db[ids[i]]|, sofar + db[ids[i]];
    t := SendChunk(db[ids[i]], from, to, s, whole, body, at, sofar);
  }

  // The chunks of a part; false when one is missing.
  method SendChunks(db: Chunks, ids: seq<ChunkId>, from: nat, to: int, s: Progress, ghost whole: bool,
                    ghost body: seq<Byte>, ghost pos: nat, ghost passed: seq<Byte>)
    returns (t: Progress, ok: bool)
    requires Stands(whole, body, from, to, pos, s) && (whole ==> Has(db, ids))
    requires whole && to >= 0 ==> NextBytes(body, pos, Left(db, ids, 0))
    ensures ok <==> Has(db, ids)
    ensures whole ==> Stands(whole, body, from, to, pos + |Left(db, ids, 0)|, t)
    ensures t.rover >= 0 && Counted(to, s, t)
    ensures from == 0 && Plain(to, s, passed) ==> Plain(to, t, passed + UpToHole(db, ids))
  {
    t := s;
    ghost var at: nat, sofar := pos, passed;
    ghost var plain, all := from == 0 && Plain(to, s, passed), passed + UpToHole(db, ids);
    BeforeFirst(db, ids, passed);
    for i := 0 to |ids|
      invariant forall k :: 0 <= k < i ==> ids[k] in db
      invariant whole ==> InChunks(db, ids, i, body, to, pos, at)
      invariant Stands(whole, body, from, to, at, t) && Counted(to, s, t)
      invariant Before(db, ids, i, sofar, all) && (plain ==> Plain(to, t, sofar))
    {
      var c := ids[i];
      BeforeNext(db, ids, i, sofar, all);
      if c !in db { return t, false; }
      t, at, sofar := SendNth(db, ids, i, from, to, t, whole, body, pos, at, sofar, all);
    }
    BeforeEnd(db, ids, sofar, all);
    return t, true;
  }

  // IterChunks on one part; false also for a part with no data at all.
  method SendPart(db: Chunks, row: PartRow, from: nat, to: int, s: Progress, ghost whole: bool, ghost body: seq<Byte>,
                  ghost pos: nat, ghost passed: seq<Byte>)
    returns (t: Progress, ok: bool)
    requires Stands(whole, body, from, to, pos, s) && (whole ==> Readable(db, row))
    requires whole && to >= 0 ==> NextBytes(body, pos, RowBytes(db, row))
    ensures ok <==> Readable(db, row)
    ensures whole ==> Stands(whole, body, from, to, pos + |RowBytes(db, row)|, t)
    ensures t.rover >= 0 && Counted(to, s, t)
    ensures from == 0 && Plain(to, s, passed) ==> Plain(to, t, passed + PartUpToHole(db, row))
  {
    if row.inline != [] {
      t := SendChunk(row.inline, from, to, s, whole, body, pos, passed);
      return t, true;
    }
    if row.chunks == [] {
      assert passed + [] == passed;
      return s, false;
    }
    if whole {
      LeftIsFlatten(db, row.chunks, 0);
      assert Pieces(db, row.chunks)[0..] == Pieces(db, row.chunks);
    }
    t, ok := SendChunks(db, row.chunks, from, to, s, whole, body, pos, passed);
  }

  // The bytes of the parts from the i-th on.
  ghost function ObjectLeft(db: Chunks, rows: seq<PartRow>, i: nat): seq<Byte>
    requires i <= |rows|
    decreases |rows| - i
  {
    if i == |rows| then [] else RowBytes(db, rows[i]) + ObjectLeft(db, rows, i + 1)
  }

  lemma {:induction false} ObjectLeftIsObject(db: Chunks, rows: seq<PartRow>, i: nat)
    requires i <= |rows|
    ensures ObjectLeft(db, rows, i) == ObjectBytes(db, rows[i..])
    decreases |rows| - i
  {
    if i < |rows| {
      ObjectLeftIsObject(db, rows, i + 1);
      assert rows[i..][1..] == rows[i + 1..];
    }
  }

  // What is left of an object from a position on is the rest of its parts.
  ghost predicate Ahead(db: Chunks, rows: seq<PartRow>, i: nat, body: seq<Byte>, pos: nat)
    requires i <= |rows|
  {
    NextBytes(body, pos, ObjectLeft(db, rows, i)) && pos + |ObjectLeft(db, rows, i)| == |body|
  }

  lemma AheadStep(db: Chunks, rows: seq<PartRow>, i: nat, body: seq<Byte>, pos: nat)
    requires i < |rows| && Ahead(db, rows, i, body, pos)
    ensures NextBytes(body, pos, RowBytes(db, rows[i])) && Ahead(db, rows, i + 1, body, pos + |RowBytes(db, rows[i])|)
  {
    NextSplits(body, pos, RowBytes(db, rows[i]), ObjectLeft(db, rows, i + 1));
  }

  lemma AheadAll(db: Chunks, rows: seq<PartRow>)
    ensures Ahead(db, rows, 0, ObjectBytes(db, rows), 0)
  {
    ObjectLeftIsObject(db, rows, 0);
    var body := ObjectBytes(db, rows);
    assert rows[0..] == rows && body[0..0 + |body|] == body;
  }

  // A part that ends before the range or begins behind it.
  lemma Skipped(body: seq<Byte>, from: nat, to: int, pos: nat, s: Progress, len: nat)
    requires Stands(true, body, from, to, pos, s) && pos + len <= |body|
    requires s.rover + len < from || s.rover >= to
    ensures Stands(true, body, from, to, pos + len, s.(rover := s.rover + len))
  {
  }

  // From the beginning of the object: a part is sent as far as it can be read, until the range
  // has been.
  ghost predicate Passes(db: Chunks, row: PartRow, from: nat, to: int, s: Progress, t: Progress, ok: bool,
                         passed: seq<Byte>) {
    from == 0 ==>
      && (s.rover >= to ==> ok && t.out == s.out && t.rover >= to)
      && (s.rover < to ==>
            (ok <==> Readable(db, row)) && (Plain(to, s, passed) ==> Plain(to, t, passed + PartUpToHole(db, row))))
  }

  // The part callback: parts outside the range are passed over.
  method PassPart(db: Chunks, row: PartRow, from: nat, to: int, s: Progress, ghost whole: bool, ghost body: seq<Byte>,
                  ghost pos: nat, ghost passed: seq<Byte>)
    returns (t: Progress, ok: bool)
    requires Stands(whole, body, from, to, pos, s)
    requires whole ==> WholePart(db, row) && NextBytes(body, pos, RowBytes(db, row))
    ensures whole ==> ok && Stands(whole, body, from, to, pos + |RowBytes(db, row)|, t)
    ensures t.rover >= 0 && Counted(to, s, t)
    ensures Passes(db, row, from, to, s, t, ok, passed)
  {
    var re := s.rover + row.size;
    if re < from || s.rover >= to {
      if whole { Skipped(body, from, to, pos, s, row.size); }
      return s.(rover := re), true;
    }
    t, ok := SendPart(db, row, from, to, s, whole, body, pos, passed);
  }

  lemma NothingSent(whole: bool, body: seq<Byte>, from: nat, to: int)
    requires (to < 0 || from <= to) && (whole ==> to <= |body|)
    ensures Stands(whole, body, from, to, 0, Progress(0, 0, []))
  {
  }

  lemma AllSent(body: seq<Byte>, from: nat, to: nat, t: Progress)
    requires Stands(true, body, from, to, |body|, t)
    ensures t.out == body[from..to]
  {
  }

  // The callback on one of an object's parts.
  method PassNth(db: Chunks, rows: seq<PartRow>, i: nat, from: nat, to: int, s: Progress,
                 ghost whole: bool, ghost body: seq<Byte>, ghost pos: nat, ghost passed: seq<Byte>)
    returns (t: Progress, ok: bool, ghost next: nat)
    requires i < |rows| && Stands(whole, body, from, to, pos, s)
    requires whole ==> WholePart(db, rows[i]) && Ahead(db, rows, i, body, pos)
    ensures Stands(whole, body, from, to, next, t) && Counted(to, s, t)
    ensures whole ==> ok && Ahead(db, rows, i + 1, body, next)
    ensures Passes(db, rows[i], from, to, s, t, ok, passed)
  {
    if whole { AheadStep(db, rows, i, body, pos); }
    next := pos + |RowBytes(db, rows[i])|;
    t, ok := PassPart(db, rows[i], from, to, s, whole, body, pos, passed);
  }

  // The loop over the parts has come to the i-th: so much has been passed, or all of the range
  // has been sent.
  ghost predicate Reaching(db: Chunks, rows: seq<PartRow>, i: nat, to: nat, t: Progress, passed: seq<Byte>)
    requires i <= |rows|
  {
    if t.rover < to then Plain(to, t, passed) && passed + Reached(db, rows[i..]) == Reached(db, rows)
    else t.out == Take(Reached(db, rows), to)
  }

  lemma ReachedFromStart(db: Chunks, rows: seq<PartRow>, to: int, t: Progress)
    requires t == Progress(0, 0, [])
    ensures to >= 0 ==> Reaching(db, rows, 0, to, t, [])
  {
    assert rows[0..] == rows && [] + Reached(db, rows) == Reached(db, rows);
  }

  lemma ReachedSplits(db: Chunks, rows: seq<PartRow>, i: nat, passed: seq<Byte>)
    requires i < |rows|
    ensures var part := PartUpToHole(db, rows[i]);
            var rest := if Readable(db, rows[i]) then Reached(db, rows[i + 1..]) else [];
            && passed + Reached(db, rows[i..]) == (passed + part) + rest
            && (passed + part) + [] == passed + part
  {
    assert rows[i..][0] == rows[i] && rows[i..][1..] == rows[i + 1..];
  }

  lemma ReachedStep(db: Chunks, rows: seq<PartRow>, i: nat, to: nat, s: Progress, t: Progress, ok: bool,
                    passed: seq<Byte>)
    requires i < |rows| && Reaching(db, rows, i, to, s, passed) && Passes(db, rows[i], 0, to, s, t, ok, passed)
    ensures ok ==> Reaching(db, rows, i + 1, to, t, passed + PartUpToHole(db, rows[i]))
    ensures !ok ==> t.out == Take(Reached(db, rows), to)
  {
    if s.rover < to {
      var part := PartUpToHole(db, rows[i]);
      ReachedSplits(db, rows, i, passed);
      if t.rover >= to {
        PlainFull(to, passed + part, if Readable(db, rows[i]) then Reached(db, rows[i + 1..]) else []);
      }
    }
  }

  // The parts loop.
  method SendParts(db: Chunks, rows: seq<PartRow>, from: nat, to: int, ghost whole: bool, ghost body: seq<Byte>)
    returns (t: Progress)
    requires to < 0 || from <= to
    requires whole ==> Whole(db, rows, |body|) && body == ObjectBytes(db, rows) && to <= |body|
    ensures whole && to >= 0 ==> t.out == body[from..to]
    ensures t.downloaded == |t.out| && (to < 0 ==> t.out == [])
    ensures from == 0 && to >= 0 ==> t.out == Take(Reached(db, rows), to)
  {
    t := Progress(0, 0, []);
    ghost var start := t;
    ghost var pos: nat, passed := 0, [];
    ReachedFromStart(db, rows, to, t);
    AheadAll(db, rows);
    NothingSent(whole, body, from, to);
    for i := 0 to |rows|
      invariant whole ==> Ahead(db, rows, i, body, pos)
      invariant Stands(whole, body, from, to, pos, t) && Counted(to, start, t)
      invariant from == 0 && to >= 0 ==> Reaching(db, rows, i, to, t, passed)
    {
      var ok;
      ghost var s := t;
      t, ok, pos := PassNth(db, rows, i, from, to, t, whole, body, pos, passed);
      if from == 0 && to >= 0 { ReachedStep(db, rows, i, to, s, t, ok, passed); }
      passed := passed + PartUpToHole(db, rows[i]);
      if !ok { break; }
    }
    if from == 0 && to >= 0 { assert Reaching(db, rows, |rows|, to, t, passed) ==> passed + [] == passed; }
    if whole && to >= 0 { AllSent(body, from, to, t); }
  }

  // Without a hole that is the object.
  lemma {:induction false} NoHole(db: Chunks, ids: seq<ChunkId>)
    requires Has(db, ids)
    ensures UpToHole(db, ids) == Flatten(Pieces(db, ids))
  {
    if ids != [] {
      assert ids[0] in ids;
      NoHole(db, ids[1..]);
      assert Pieces(db, ids) == [db[ids[0]]] + Pieces(db, ids[1..]);
      FlattenCons(db[ids[0]], Pieces(db, ids[1..]));
    }
  }

  lemma {:induction false} ReachesAll(db: Chunks, rows: seq<PartRow>)
    requires forall i :: 0 <= i < |rows| ==> Readable(db, rows[i])
    ensures Reached(db, rows) == ObjectBytes(db, rows)
  {
    if rows != [] {
      if rows[0].inline == [] { NoHole(db, rows[0].chunks); }
      ReachesAll(db, rows[1..]);
    }
  }

  datatype Reply = Reply(contentLength: int, out: seq<Byte>, downloaded: int)

  function EndOf(to: int, size: nat): int { if to > size then size else to }

  // The range a request asks for; all of the object without a header.
  function RangeOf(header: Option<string>): Option<(int, int)> {
    if header.None? then Some((0, MAX_INT64)) else ParseRange(header.value)
  }

  // What is announced when the end has wrapped around: a negative length for all of the
  // object, else the size, or what is left of the int64 range if that is less.
  function WrappedLength(from: nat, size: nat): int {
    if from == 0 then MIN_INT64 else if size <= MAX_INT64 - from + 1 then size else MAX_INT64 - from + 1
  }

  // The reply to a GET of an object that holds these bytes.
  predicate Replies(r: Option<Reply>, bytes: seq<Byte>, header: Option<string>) {
    var range := RangeOf(header);
    && (r.None? <==> range.None? || range.value.0 > |bytes|)
    && (r.Some? ==>
          var (from, to) := range.value;
          if to == MIN_INT64 then
            && r.value.out == [] && r.value.downloaded != r.value.contentLength
            && from >= 0 && r.value.contentLength == WrappedLength(from, |bytes|)
          else
            && 0 <= from <= EndOf(to, |bytes|)
            && r.value.out == bytes[from..EndOf(to, |bytes|)]
            && r.value.contentLength == r.value.downloaded == |r.value.out|)
  }

  // No range of a header begins within the object.
  ghost predicate AsksNothing(rng: string, size: nat) {
    forall from: nat, to: nat :: from <= to <= MAX_INT64 && Asks(rng, from, to) ==> from > size
  }

  lemma RefusedExactly(header: Option<string>, size: nat)
    ensures RangeOf(header).None? || RangeOf(header).value.0 > size
            <==> header.Some? && AsksNothing(header.value, size)
  {
    if header.Some? {
      AcceptedExactly(header.value);
      if ParseRange(header.value).Some? {
        var from, to := AcceptedIsAsked(header.value);
      }
    }
  }

  // What such a reply is, by the text of the header: without one the whole object; with one the
  // bytes from the first to the last asked for, as far as there are any, or a refusal.
  lemma RepliesMean(r: Option<Reply>, bytes: seq<Byte>, header: Option<string>)
    requires |bytes| <= MAX_INT64 && Replies(r, bytes, header)
    ensures header.None? ==> r.Some? && r.value.out == bytes && r.value.contentLength == |bytes|
    ensures header.Some? ==> (r.None? <==> AsksNothing(header.value, |bytes|))
    ensures header.Some? ==>
              forall from: nat, to: nat :: from <= to < MAX_INT64 && from <= |bytes| && Asks(header.value, from, to) ==>
                r.Some? && r.value.out == (if to < |bytes| then bytes[from..to + 1] else bytes[from..])
  {
    RefusedExactly(header, |bytes|);
    if header.None? {
      assert bytes[0..|bytes|] == bytes;
    } else {
      AcceptedExactly(header.value);
    }
  }

  // handleGetObject on the current version: None is a refused range. The reply carries the
  // slice, and is as long as announced, exactly when the end has not wrapped around. What is
  // announced is charged as well (Download).
  method GetObject(db: Chunks, rows: seq<PartRow>, size: nat, header: Option<string>) returns (r: Option<Reply>)
    requires size <= MAX_INT64
    ensures r.None? <==> RangeOf(header).None? || RangeOf(header).value.0 > size
    ensures r.None? <==> header.Some? && AsksNothing(header.value, size)
    ensures Whole(db, rows, size) ==> Replies(r, ObjectBytes(db, rows), header)
    ensures r.Some? && Whole(db, rows, size) ==>
              var (from, to) := RangeOf(header).value;
              if to == MIN_INT64 then r.value.out == [] && r.value.downloaded != r.value.contentLength
              else
                && 0 <= from <= EndOf(to, size)
                && r.value.out == ObjectBytes(db, rows)[from..EndOf(to, size)]
                && r.value.contentLength == r.value.downloaded == |r.value.out|
    ensures r.Some? ==>
              var (from, to) := RangeOf(header).value;
              && (to == MIN_INT64 ==> from >= 0 && r.value.contentLength == WrappedLength(from, size))
              && (r.value.contentLength < 0 <==> (from, to) == (0, MIN_INT64))
    // whatever is missing of the object, from its beginning all is sent up to the first hole
    ensures r.Some? && RangeOf(header).value.0 == 0 && RangeOf(header).value.1 >= 0 ==>
              var end := EndOf(RangeOf(header).value.1, size);
              && r.value.out == Take(Reached(db, rows), end) && r.value.contentLength == end
              && r.value.downloaded == |r.value.out|
    ensures header.None? ==> r.Some? && r.value.out == Take(Reached(db, rows), size)
  {
    RefusedExactly(header, size);
    var range := RangeOf(header);
    if range.None? { return None; }
    if header.Some? { RangeShape(header.value); }
    var from, to := range.value.0, range.value.1;
    if from > size { return None; }
    if to > size { to := size; }
    var ds := Wrap64(to - from);
    if ds > size { ds := size; }
    ghost var whole := Whole(db, rows, size);
    var t := SendParts(db, rows, from, to, whole, if whole then ObjectBytes(db, rows) else []);
    return Some(Reply(ds, t.out, t.downloaded));
  }

  lemma OneWholePart(db: Chunks, row: PartRow)
    requires Has(db, row.chunks) && Bytes(db, row) != [] && row.size == |Bytes(db, row)|
    ensures Whole(db, [row], row.size) && ObjectBytes(db, [row]) == Bytes(db, row)
  {
    assert [row][1..] == [];
    assert row.chunks == [] ==> Pieces(db, row.chunks) == [];
  }

  // PUT, copy, GET: whatever the cuts the body is read in, the sizes of buffers and the range
  // asked for, the object and its copy both reply with that slice of the body.
  method PutCopyGet(db: ChunkDb, body: BodyReader, size: nat, inlineMax: nat, max: nat, header: Option<string>)
    returns (get: Option<Reply>, getCopy: Option<Reply>)
    requires db.Valid() && max > 0 && 0 < size <= |body.rest| && size <= MAX_INT64
    modifies db, body
    ensures Replies(get, old(body.rest)[..size], header) && Replies(getCopy, old(body.rest)[..size], header)
  {
    var row := db.PutData(body, size, inlineMax, max);
    OneWholePart(db.chunks, row.value);
    get := GetObject(db.chunks, [row.value], size, header);
    var copies, ok := db.CopyParts([row.value]);
    assert ok && |copies| == 1 && copies == [copies[0]];
    OneWholePart(db.chunks, copies[0]);
    getCopy := GetObject(db.chunks, copies, size, header);
  }
}
