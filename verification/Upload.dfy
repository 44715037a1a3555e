// Multipart uploads: the lock/ref protocol on one upload record, with part uploads, finishers,
// aborters and deletes of the finished object interleaved at every database call.
module Upload {
  import opened Common
  import opened S3Db

  type OpId = nat
  type PartId = nat

  // size is what the client declared; the data may be shorter (see PartStore.ChunkDb.AddPart).
  datatype Part = Part(num: nat, size: nat, data: seq<bv8>, state: State)
  type Parts = map<PartId, Part>

  datatype Record = Record(state: State, lock: int, ref: int)
  datatype Final = Final(state: State, size: nat)

  // Where an operation on the upload, or on the object made of it, stands.
  datatype Pc =
    // s3UploadPart
    | RefInc(num: nat, size: nat, data: seq<bv8>)
    | Storing(num: nat, size: nat, data: seq<bv8>)   // AddPart before its dbS3Insert
    | Writing(id: PartId)                 // WriteChunks and the move to Active
    | Unstore(id: PartId)                 // AddPart's out:
    | RefDec
    // s3UploadFini
    | LockFini
    | Resum
    | Insert(size: nat)
    | Acct(size: nat)
    | Activate(size: nat)
    | Commit
    | Unmake                              // dbS3Remove of the object
    // s3UploadAbort
    | LockAbort
    | ListAll
    // s3UploadRemoveLocked, for an abort with the parts
    | Close(abort: bool)
    | Erase(abort: bool)
    | Unlock
    // DropObject
    | Deactivate
    | ListActive
    | Unacct
    | EraseObject
    // DeletePart on the head of a list; marked when it is Inactive already
    | Clear(abort: bool, todo: seq<PartId>, marked: bool)

  // The records, and history that no step reads: who counts in ref, who holds the lock, who
  // deletes the object, who stores a part; the parts at the last lock by a finisher, the
  // order they were summed in; how often the upload was completed; ids in use.
  datatype World = World(
    up: Option<Record>, parts: Parts, obj: Option<Final>,
    refs: set<OpId>, holder: Option<OpId>, dropper: Option<OpId>, author: map<PartId, OpId>,
    snap: Parts, order: seq<PartId>, made: nat, uncharged: bool, used: set<PartId>)

  datatype Sys = Sys(w: World, ops: map<OpId, Pc>)

  datatype Step =
    | BeginPart(p: OpId, num: nat, size: nat, data: seq<bv8>)
    | BeginFini(p: OpId)
    | BeginAbort(p: OpId)
    | BeginDrop(p: OpId)
    | Store(p: OpId, id: PartId)
    | Sum(p: OpId, order: seq<PartId>)
    | List(p: OpId, todo: seq<PartId>)
    | Go(p: OpId)
    | Fail(p: OpId)

  // s3UploadInit has inserted the record.
  function Init(): Sys {
    Sys(World(Some(Record(Active, 0, 0)), map[], None, {}, None, None, map[], map[], [], 0, false, {}), map[])
  }

  ghost function ActiveParts(ps: Parts): Parts { map x | x in ps && ps[x].state == Active :: ps[x] }

  ghost predicate Enumerates(ps: Parts, ids: seq<PartId>) {
    && (forall i, j :: 0 <= i < j < |ids| ==> ids[i] != ids[j])
    && (forall x :: x in ids <==> x in ps)
  }

  // A result of a query sorted by part number; equal numbers come in any order.
  ghost predicate Listing(ps: Parts, ids: seq<PartId>) {
    && Enumerates(ps, ids)
    && forall i, j :: 0 <= i < j < |ids| ==> ps[ids[i]].num <= ps[ids[j]].num
  }

  // What reading the Active parts in this order yields.
  ghost function Body(ps: Parts, ids: seq<PartId>): seq<bv8> {
    if ids == [] then []
    else (if ids[0] in ps && ps[ids[0]].state == Active then ps[ids[0]].data else []) + Body(ps, ids[1..])
  }

  // What ResumParts adds up: the declared sizes.
  ghost function Sizes(ps: Parts, ids: seq<PartId>): nat {
    if ids == [] then 0
    else (if ids[0] in ps && ps[ids[0]].state == Active then ps[ids[0]].size else 0) + Sizes(ps, ids[1..])
  }

  // An empty part has neither inline data nor chunks, and ResumParts gives up on it.
  ghost predicate NoneEmpty(ps: Parts) {
    forall x :: x in ps && ps[x].state == Active ==> ps[x].data != []
  }

  ghost predicate Enabled(s: Sys, st: Step) {
    match st
    case BeginPart(p, _, size, data) =>
      p !in s.ops && s.w.up.Some? && s.w.up.value.state == Active && |data| <= size && size > 0
    case BeginFini(p) => p !in s.ops && s.w.up.Some? && s.w.up.value.state == Active
    case BeginAbort(p) => p !in s.ops && s.w.up.Some?
    case BeginDrop(p) => p !in s.ops && s.w.obj.Some? && s.w.obj.value.state == Active
    case Store(p, id) => p in s.ops && s.ops[p].Storing? && id !in s.w.used
    case Sum(p, order) => p in s.ops && s.ops[p].Resum? && Listing(s.w.parts, order)
    case List(p, todo) =>
      && p in s.ops && (s.ops[p].ListAll? || s.ops[p].ListActive?)
      && Enumerates(if s.ops[p].ListAll? then s.w.parts else ActiveParts(s.w.parts), todo)
    case Go(p) =>
      && p in s.ops && !s.ops[p].Storing? && !s.ops[p].Resum? && !s.ops[p].ListAll? && !s.ops[p].ListActive?
    case Fail(p) =>
      && p in s.ops
      && match s.ops[p] {
           case Storing(_, _, _) => true       // the body's reader fails
           case Writing(_) => true
           case Acct(_) => true             // over the limit, or the bucket is gone
           case Commit => s.w.uncharged     // S3Theorems.LateFailureIsHarmless
           case Unacct => true              // S3Theorems.StrandsExactly
           case _ => false
         }
  }

  type Moved = (World, Option<Pc>)

  // --- dbRefInc, dbRefDec, dbLock, dbUnlock ---

  function StepRefInc(w: World, p: OpId, pc: Pc): Moved
    requires pc.RefInc?
  {
    if w.up.Some? && w.up.value.state == Active && w.up.value.lock == 0
    then (w.(up := Some(w.up.value.(ref := w.up.value.ref + 1)), refs := w.refs + {p}),
        Some(Storing(pc.num, pc.size, pc.data)))
    else (w, None)
  }

  function StepRefDec(w: World, p: OpId): Moved {
    if w.up.Some? && w.up.value.state == Active && w.up.value.lock == 0
    then (w.(up := Some(w.up.value.(ref := w.up.value.ref - 1)), refs := w.refs - {p}), None)
    else (w.(refs := w.refs - {p}), None)
  }

  ghost function StepLock(w: World, p: OpId, abort: bool): Moved {
    if w.up.Some? && w.up.value.state == Active && w.up.value.lock == 0 && w.up.value.ref == 0
    then (w.(up := Some(w.up.value.(lock := w.up.value.lock + 1)), holder := Some(p),
             snap := if abort then w.snap else ActiveParts(w.parts)),
          Some(if abort then Close(true) else Resum))
    else (w, None)
  }

  function StepUnlock(w: World): Moved {
    if w.up.Some? && w.up.value.state == Active && w.up.value.lock == 1 && w.up.value.ref == 0
    then (w.(up := Some(w.up.value.(lock := w.up.value.lock - 1)), holder := None), None)
    else (w.(holder := None), None)
  }

  // --- the parts ---

  function StepStore(w: World, p: OpId, pc: Pc, id: PartId): Moved
    requires pc.Storing?
  {
    (w.(parts := w.parts[id := Part(pc.num, pc.size, pc.data, NoneState)], author := w.author[id := p],
        used := w.used + {id}),
     Some(Writing(id)))
  }

  function StepWriting(w: World, id: PartId): Moved {
    if id in w.parts && w.parts[id].state == NoneState
    then (w.(parts := w.parts[id := w.parts[id].(state := Active)]), Some(RefDec))
    else (w, Some(Unstore(id)))
  }

  function StepUnstore(w: World, id: PartId): Moved { (w.(parts := w.parts - {id}), Some(RefDec)) }

  // A deletion went through the list: an abort removes the upload, a drop uncharges.
  function Cleared(abort: bool, todo: seq<PartId>): Pc {
    if todo != [] then Clear(abort, todo, false) else if abort then Erase(true) else Unacct
  }

  function StepClear(w: World, pc: Pc): Moved
    requires pc.Clear?
  {
    if pc.todo == [] then (w, Some(Cleared(pc.abort, [])))
    else
      var id := pc.todo[0];
      if id in w.parts && w.parts[id].state == (if pc.marked then Inactive else Active)
      then
        if pc.marked then (w.(parts := w.parts - {id}), Some(Cleared(pc.abort, pc.todo[1..])))
        else (w.(parts := w.parts[id := w.parts[id].(state := Inactive)]), Some(pc.(marked := true)))
      else if pc.abort then (w, Some(Unlock))
      else (w.(dropper := None), None)
  }

  // --- the object ---

  ghost function StepSum(w: World, order: seq<PartId>): Moved {
    if NoneEmpty(w.parts) then (w.(order := order), Some(Insert(Sizes(w.parts, order)))) else (w, Some(Unlock))
  }

  function StepInsert(w: World, pc: Pc): Moved
    requires pc.Insert?
  {
    if w.obj.Some? then (w, Some(Unlock))
    else (w.(obj := Some(Final(NoneState, pc.size)), uncharged := false), Some(Acct(pc.size)))
  }

  function StepActivate(w: World): Moved {
    if w.obj.Some? && w.obj.value.state == NoneState
    then (w.(obj := Some(w.obj.value.(state := Active))), Some(Commit))
    else (w, Some(Unmake))
  }

  function StepDeactivate(w: World, p: OpId): Moved {
    if w.obj.Some? && w.obj.value.state == Active
    then (w.(obj := Some(w.obj.value.(state := Inactive)), dropper := Some(p)), Some(ListActive))
    else (w, None)
  }

  function StepEraseObject(w: World): Moved {
    if w.obj.Some? && w.obj.value.state == Inactive then (w.(obj := None), None) else (w, None)
  }

  // --- s3UploadRemoveLocked ---

  function StepClose(w: World, abort: bool): Moved {
    if w.up.Some? && w.up.value.state == Active
    then (w.(up := Some(w.up.value.(state := Inactive))), Some(if abort then ListAll else Erase(false)))
    else if abort then (w, Some(Unlock))
    else (w.(holder := None), None)
  }

  function StepErase(w: World, abort: bool): Moved {
    if w.up.Some? && w.up.value.state == Inactive && w.up.value.ref == 0
    then (w.(up := None, holder := None), None)
    else if abort then (w, Some(Unlock))
    else (w.(holder := None), None)
  }

  // --- all steps ---

  ghost function StepGo(w: World, p: OpId, pc: Pc): Moved {
    match pc
    case RefInc(_, _, _) => StepRefInc(w, p, pc)
    case Writing(id) => StepWriting(w, id)
    case Unstore(id) => StepUnstore(w, id)
    case RefDec => StepRefDec(w, p)
    case LockFini => StepLock(w, p, false)
    case Insert(_) => StepInsert(w, pc)
    case Acct(size) => (w, Some(Activate(size)))
    case Activate(_) => StepActivate(w)
    case Commit => (w.(made := w.made + 1), Some(Close(false)))
    case Unmake => (w.(obj := None), Some(Unlock))
    case LockAbort => StepLock(w, p, true)
    case Close(abort) => StepClose(w, abort)
    case Erase(abort) => StepErase(w, abort)
    case Unlock => StepUnlock(w)
    case Deactivate => StepDeactivate(w, p)
    case Unacct => (w.(uncharged := true, dropper := None), Some(EraseObject))
    case EraseObject => StepEraseObject(w)
    case Clear(_, _, _) => StepClear(w, pc)
    case _ => (w, Some(pc))
  }

  function StepFail(w: World, pc: Pc): Moved {
    match pc
    case Storing(_, _, _) => (w, Some(RefDec))
    case Writing(id) => (w, Some(Unstore(id)))
    case Acct(_) => (w, Some(Unmake))
    case Commit => (w, Some(Unmake))
    case _ => (w.(dropper := None), None)
  }

  ghost function Effect(s: Sys, st: Step): Moved
    requires Enabled(s, st)
  {
    match st
    case BeginPart(_, num, size, data) => (s.w, Some(RefInc(num, size, data)))
    case BeginFini(_) => (s.w, Some(LockFini))
    case BeginAbort(_) => (s.w, Some(LockAbort))
    case BeginDrop(_) => (s.w, Some(Deactivate))
    case Store(p, id) => StepStore(s.w, p, s.ops[p], id)
    case Sum(_, order) => StepSum(s.w, order)
    case List(p, todo) => (s.w, Some(Cleared(s.ops[p].ListAll?, todo)))
    case Go(p) => StepGo(s.w, p, s.ops[p])
    case Fail(p) => StepFail(s.w, s.ops[p])
  }

  function Put(ops: map<OpId, Pc>, p: OpId, pc: Option<Pc>): map<OpId, Pc> {
    if pc.Some? then ops[p := pc.value] else ops - {p}
  }

  ghost function Apply(s: Sys, st: Step): Sys
    requires Enabled(s, st)
  {
    var m := Effect(s, st);
    Sys(m.0, Put(s.ops, st.p, m.1))
  }

  ghost predicate Next(s: Sys, t: Sys) {
    exists st :: Enabled(s, st) && t == Apply(s, st)
  }

  ghost predicate IsRun(run: seq<Sys>) {
    && |run| > 0 && run[0] == Init()
    && forall i :: 0 <= i < |run| - 1 ==> Next(run[i], run[i + 1])
  }

  ghost predicate Reachable(s: Sys) {
    exists run :: IsRun(run) && s == run[|run| - 1]
  }
}
