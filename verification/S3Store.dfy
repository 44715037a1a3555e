// Puts, copies, upload completions, deletes, version GC, bucket creation and bucket
// deletion as interleaved operations: every database call is one atomic step, and each
// operation in flight has a program counter between its calls.
module S3Store {
  import opened Common
  import opened Ledger
  import opened S3Db

  type OpId = nat
  type Limits = map<NsId, nat>

  // Where a creation (AddObject, CopyObject, UploadToObject) stands after its dbS3Insert.
  datatype CreatePc =
    | AcctNs        // acctObj, StatsAcct and the limit check
    | AcctBucket    // acctObj, bucketAcct
    | Data          // AddPart or the CopyPart loop; may fail
    | Activate      // Activate, the state change
    | Commit        // commitObj
    | UndoBucket    // out_acc: unacctObj, bucketAcct
    | UndoNs        // StatsUnacct, after a refused charge or in unacctObj
    | Remove        // dbS3Remove

  datatype DropPc = Deactivate | UnacctBucket | UnacctNs | Erase

  datatype Op =
    // activated: the object has already been handed over by the state change
    | Create(pc: CreatePc, h: Handle, id: ObjId, key: string, size: nat, rover: int, activated: bool)
    // GC of one key, before its query
    | Gc(h: Handle, key: string, below: int)
    // DropObject on id, then on the rest of a GC list
    | Drop(dpc: DropPc, h: Handle, id: ObjId, size: nat, rest: seq<ObjId>)
    // s3InsertBucket after its insert
    | NewBucket(h: Handle)
    // s3DeleteBucket before its state change, and before RemoveFromDB
    | MarkBucket(h: Handle)
    | EraseBucket(h: Handle)

  // The database, and history that no step reads: who is responsible for an object,
  // which charges stand, which rovers were given out, which deletions got stuck.
  datatype World = World(
    stats: StatsTable, buckets: Buckets, objects: Objects,
    owner: map<ObjId, OpId>,
    nsLed: Charges,       // charged to the namespace
    admLed: Charges,      // of those, the ones that passed the limit check
    bktLed: Charges,      // of those, the ones charged to their bucket
    grants: map<(BucketId, int), ObjId>,
    known: map<BucketId, Handle>,
    stranded: set<ObjId>)

  datatype Sys = Sys(w: World, ops: map<OpId, Op>)

  datatype Step =
    | BeginCreate(p: OpId, h: Handle, id: ObjId, key: string, size: nat)
    | BeginDelete(p: OpId, h: Handle, key: string, found: Option<ObjId>)
    | BeginNewBucket(p: OpId, h: Handle)
    | BeginDropBucket(p: OpId, h: Handle)
    | Go(p: OpId)
    | DataFails(p: OpId)
    | GcQuery(p: OpId, todo: seq<ObjId>)

  function Init(): Sys {
    Sys(World(map[], map[], map[], map[], map[], map[], map[], map[], map[], {}), map[])
  }

  predicate Mentions(op: Op, x: ObjId) {
    match op
    case Create(_, _, id, _, _, _, _) => id == x
    case Drop(_, _, id, _, rest) => id == x || x in rest
    case _ => false
  }

  // A handle FindBucket may have returned, now or earlier.
  predicate Known(w: World, h: Handle) { h.id in w.known && w.known[h.id] == h }

  ghost predicate Enabled(s: Sys, st: Step) {
    match st
    case BeginCreate(p, h, id, _, _) =>
      // a new ObjectId, or the id of an upload that no operation in flight refers to
      p !in s.ops && Known(s.w, h) && forall q :: q in s.ops ==> !Mentions(s.ops[q], id)
    case BeginDelete(p, h, key, found) =>
      && p !in s.ops && Known(s.w, h)
      && match found {
           case None => NoCurrent(s.w.objects, OCookie(h.bcookie, key))
           case Some(x) => IsCurrent(s.w.objects, OCookie(h.bcookie, key), x)
         }
    case BeginNewBucket(p, h) => p !in s.ops && h.id !in s.w.known
    case BeginDropBucket(p, h) => p !in s.ops && Known(s.w, h)
    case Go(p) => p in s.ops && !s.ops[p].Gc?
    case DataFails(p) => p in s.ops && s.ops[p].Create? && s.ops[p].pc == Data
    case GcQuery(p, todo) =>
      p in s.ops && s.ops[p].Gc? && GcList(s.w.objects, s.ops[p].h.id, s.ops[p].key, s.ops[p].below, todo)
  }

  // --- One atomic step of an operation: the new world, and the operation's next
  // --- program counter, or None when it has returned.

  type Moved = (World, Option<Op>)

  function ChargeOf(op: Op): Charge
    requires op.Create? || op.Drop?
  {
    Charge(op.h.id, op.h.ns, op.size)
  }

  // createObjectPre, dbS3Insert; the _id index refuses an id in use.
  function StepInsert(w: World, p: OpId, h: Handle, id: ObjId, key: string, size: nat): Moved {
    if id in w.objects then (w, None)
    else (w.(objects := w.objects[id := Object(h.id, OCookie(h.bcookie, key), size, NoneState, 0)],
             owner := w.owner[id := p]),
          Some(Create(AcctNs, h, id, key, size, 0, false)))
  }

  function StepInsertBucket(w: World, h: Handle): Moved {
    if h.id in w.buckets || !CookieFree(w.buckets, h.bcookie) then (w, None)
    else (w.(buckets := w.buckets[h.id := Bucket(h.bcookie, h.ns, NoneState, 0, 0, 0, 0)],
             known := w.known[h.id := h]),
          Some(NewBucket(h)))
  }

  function StepAcctNs(lim: Limits, w: World, op: Op): Moved
    requires op.Create?
  {
    var st := StatsAcct(w.stats, op.h.ns, 1, op.size);
    var led := w.nsLed[op.id := ChargeOf(op)];
    if Limited(lim, op.h.ns, st[op.h.ns].cntBytes)
    then (w.(stats := st, nsLed := led), Some(op.(pc := UndoNs)))
    else (w.(stats := st, nsLed := led, admLed := w.admLed[op.id := ChargeOf(op)]), Some(op.(pc := AcctBucket)))
  }

  function StepAcctBucket(w: World, op: Op): Moved
    requires op.Create?
  {
    match BucketAcct(w.buckets, op.h.id, Inc(1, op.size, 1, 1))
    case None => (w, Some(op.(pc := UndoNs)))
    case Some(bs) =>
      var rover := bs[op.h.id].rover;
      (w.(buckets := bs, bktLed := w.bktLed[op.id := ChargeOf(op)], grants := w.grants[(op.h.id, rover) := op.id]),
       Some(op.(pc := Data, rover := rover)))
  }

  function StepActivate(w: World, op: Op): Moved
    requires op.Create?
  {
    match SetObject(w.objects, op.id, Active, Some(op.rover))
    case None => (w, Some(op.(pc := UndoBucket)))
    case Some(os) => (w.(objects := os, owner := w.owner - {op.id}), Some(op.(pc := Commit, activated := true)))
  }

  function StepCommit(w: World, op: Op): Moved
    requires op.Create?
  {
    match BucketAcct(w.buckets, op.h.id, Inc(0, 0, -1, 0))
    case None => (w, Some(op.(pc := UndoBucket)))
    // the collector is given the rover of the bucket record that commitObj read back
    case Some(bs) => (w.(buckets := bs), Some(Gc(op.h, op.key, bs[op.h.id].rover)))
  }

  function StepUndoBucket(w: World, op: Op): Moved
    requires op.Create?
  {
    match BucketAcct(w.buckets, op.h.id, Inc(-1, -(op.size as int), -1, 0))
    case None => (w, Some(op.(pc := Remove)))
    case Some(bs) => (w.(buckets := bs, bktLed := w.bktLed - {op.id}), Some(op.(pc := UndoNs)))
  }

  function UnchargeNs(w: World, op: Op): Option<World>
    requires op.Create? || op.Drop?
  {
    match StatsUnacct(w.stats, op.h.ns, -1, -(op.size as int))
    case None => None
    case Some(st) => Some(w.(stats := st, nsLed := w.nsLed - {op.id}, admLed := w.admLed - {op.id}))
  }

  function StepUndoNs(w: World, op: Op): Moved
    requires op.Create?
  {
    (if UnchargeNs(w, op).Some? then UnchargeNs(w, op).value else w, Some(op.(pc := Remove)))
  }

  function StepRemove(w: World, op: Op): Moved
    requires op.Create?
  {
    (w.(objects := w.objects - {op.id}, owner := if op.activated then w.owner else w.owner - {op.id}), None)
  }

  // What follows one DropObject, whether it failed or not.
  function NextDrop(op: Op): Option<Op>
    requires op.Drop?
  {
    if op.rest == [] then None else Some(Drop(Deactivate, op.h, op.rest[0], 0, op.rest[1..]))
  }

  function StepDeactivate(w: World, p: OpId, op: Op): Moved
    requires op.Drop?
  {
    match SetObject(w.objects, op.id, Inactive, None)
    case None => (w, NextDrop(op))
    case Some(os) =>
      (w.(objects := os, owner := w.owner[op.id := p]), Some(op.(dpc := UnacctBucket, size := os[op.id].size)))
  }

  function StepUnacctBucket(w: World, op: Op): Moved
    requires op.Drop?
  {
    match BucketAcct(w.buckets, op.h.id, Inc(-1, -(op.size as int), 0, 0))
    // DropObject returns here: the object stays Inactive and charged
    case None => (w.(owner := w.owner - {op.id}, stranded := w.stranded + {op.id}), NextDrop(op))
    case Some(bs) => (w.(buckets := bs, bktLed := w.bktLed - {op.id}), Some(op.(dpc := UnacctNs)))
  }

  function StepUnacctNs(w: World, op: Op): Moved
    requires op.Drop?
  {
    match UnchargeNs(w, op)
    case None => (w, NextDrop(op))
    case Some(v) => (v, Some(op.(dpc := Erase)))
  }

  function StepErase(w: World, op: Op): Moved
    requires op.Drop?
  {
    var v := w.(owner := w.owner - {op.id});
    match RemoveObject(w.objects, op.id, Inactive)
    case None => (v, NextDrop(op))
    case Some(os) => (v.(objects := os), NextDrop(op))
  }

  function StepBucketState(w: World, id: BucketId, to: State, next: Option<Op>): Moved {
    match SetBucket(w.buckets, id, to)
    case None => (w, None)
    case Some(bs) => (w.(buckets := bs), next)
  }

  function StepEraseBucket(w: World, id: BucketId): Moved {
    match RemoveBucket(w.buckets, id)
    case None => (w, None)
    case Some(bs) => (w.(buckets := bs), None)
  }

  function StepOp(lim: Limits, w: World, p: OpId, op: Op): Moved
    requires !op.Gc?
  {
    match op
    case Create(pc, _, _, _, _, _, _) => (
      match pc
      case AcctNs => StepAcctNs(lim, w, op)
      case AcctBucket => StepAcctBucket(w, op)
      case Data => (w, Some(op.(pc := Activate)))
      case Activate => StepActivate(w, op)
      case Commit => StepCommit(w, op)
      case UndoBucket => StepUndoBucket(w, op)
      case UndoNs => StepUndoNs(w, op)
      case Remove => StepRemove(w, op))
    case Drop(dpc, _, _, _, _) => (
      match dpc
      case Deactivate => StepDeactivate(w, p, op)
      case UnacctBucket => StepUnacctBucket(w, op)
      case UnacctNs => StepUnacctNs(w, op)
      case Erase => StepErase(w, op))
    case NewBucket(h) => StepBucketState(w, h.id, Active, None)
    case MarkBucket(h) => StepBucketState(w, h.id, Inactive, Some(EraseBucket(h)))
    case EraseBucket(h) => StepEraseBucket(w, h.id)
  }

  // What a step does to the operation that takes it.
  ghost function Effect(lim: Limits, s: Sys, st: Step): Moved
    requires Enabled(s, st)
  {
    match st
    case BeginCreate(p, h, id, key, size) => StepInsert(s.w, p, h, id, key, size)
    case BeginDelete(p, h, _, found) =>
      (s.w, if found.Some? then Some(Drop(Deactivate, h, found.value, 0, [])) else None)
    case BeginNewBucket(p, h) => StepInsertBucket(s.w, h)
    case BeginDropBucket(p, h) => (s.w, Some(MarkBucket(h)))
    case Go(p) => StepOp(lim, s.w, p, s.ops[p])
    case DataFails(p) => (s.w, Some(s.ops[p].(pc := UndoBucket)))
    case GcQuery(p, todo) =>
      (s.w, if todo == [] then None else Some(Drop(Deactivate, s.ops[p].h, todo[0], 0, todo[1..])))
  }

  function Put(ops: map<OpId, Op>, p: OpId, op: Option<Op>): map<OpId, Op> {
    if op.Some? then ops[p := op.value] else ops - {p}
  }

  ghost function Apply(lim: Limits, s: Sys, st: Step): Sys
    requires Enabled(s, st)
  {
    var m := Effect(lim, s, st);
    Sys(m.0, Put(s.ops, st.p, m.1))
  }

  ghost predicate Next(lim: Limits, s: Sys, t: Sys) {
    exists st :: Enabled(s, st) && t == Apply(lim, s, st)
  }

  // A run from the empty store.
  ghost predicate IsRun(lim: Limits, run: seq<Sys>) {
    && |run| > 0 && run[0] == Init()
    && forall i :: 0 <= i < |run| - 1 ==> Next(lim, run[i], run[i + 1])
  }
}
