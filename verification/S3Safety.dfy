// Safety of the store over every run of interleaved operations.
module S3Safety {
  import opened Common
  import opened Ledger
  import opened S3Db
  import opened S3Store
  import opened S3Inv
  import opened S3Steps

  ghost predicate Reachable(lim: Limits, s: Sys) {
    exists run :: IsRun(lim, run) && s == run[|run| - 1]
  }

  lemma InitOk(lim: Limits)
    ensures Inv(lim, Init())
  {
    assert forall b :: OfBucket(map[], b) == map[] && OfNs(map[], b) == map[];
    assert forall b :: Window(map[], b) == {};
  }

  lemma ReadyOp(lim: Limits, s: Sys, p: OpId)
    requires Inv(lim, s) && p in s.ops
    ensures Ready(lim, s.w, p, s.ops[p])
  {
    assert OpAt(s, p);
    forall x | x in s.w.owner && s.w.owner[x] == p ensures Owns(s.ops[p], x) { assert OwnerOk(s, x); }
  }

  lemma FreshOp(lim: Limits, s: Sys, p: OpId)
    requires Inv(lim, s) && p !in s.ops
    ensures forall x :: x in s.w.owner ==> s.w.owner[x] != p
  {
    forall x | x in s.w.owner ensures s.w.owner[x] != p { assert OwnerOk(s, x); }
  }

  lemma CreateGood(lim: Limits, w: World, p: OpId, op: Op)
    requires Ready(lim, w, p, op) && op.Create?
    ensures Good(lim, w, StepOp(lim, w, p, op), p, Some(op), None)
  {
    match op.pc {
      case AcctNs => AcctNsGood(lim, w, p, op);
      case AcctBucket => AcctBucketGood(lim, w, p, op);
      case Data => IdleGood(lim, w, p, Some(op), Some(op.(pc := Activate)), None);
      case Activate => ActivateGood(lim, w, p, op);
      case Commit => CommitGood(lim, w, p, op);
      case UndoBucket => UndoBucketGood(lim, w, p, op);
      case UndoNs => UndoNsGood(lim, w, p, op);
      case Remove => RemoveGood(lim, w, p, op);
    }
  }

  lemma DropGood(lim: Limits, w: World, p: OpId, op: Op)
    requires Ready(lim, w, p, op) && op.Drop?
    ensures Good(lim, w, StepOp(lim, w, p, op), p, Some(op), None)
  {
    match op.dpc {
      case Deactivate => DeactivateGood(lim, w, p, op);
      case UnacctBucket => UnacctBucketGood(lim, w, p, op);
      case UnacctNs => UnacctNsGood(lim, w, p, op);
      case Erase => EraseGood(lim, w, p, op);
    }
  }

  lemma GoGood(lim: Limits, w: World, p: OpId, op: Op)
    requires Ready(lim, w, p, op) && !op.Gc?
    ensures Good(lim, w, StepOp(lim, w, p, op), p, Some(op), None)
  {
    match op {
      case Create(_, _, _, _, _, _, _) => CreateGood(lim, w, p, op);
      case Drop(_, _, _, _, _) => DropGood(lim, w, p, op);
      case NewBucket(_) => BucketStateGood(lim, w, p, op);
      case MarkBucket(_) => BucketStateGood(lim, w, p, op);
      case EraseBucket(_) => EraseBucketGood(lim, w, p, op);
    }
  }

  // A drop that starts on objects whose cookies are of the handle's bucket name.
  lemma DropStarts(lim: Limits, w: World, p: OpId, h: Handle, pre: Option<Op>, todo: seq<ObjId>)
    requires WorldOk(lim, w) && Known(w, h) && todo != []
    requires forall x :: x in w.owner ==> w.owner[x] != p
    requires pre.Some? ==> !InWindow(pre.value)
    requires forall x :: x in todo && x in w.objects ==> w.objects[x].ocookie.bcookie == h.bcookie
    ensures Good(lim, w, (w, Some(Drop(Deactivate, h, todo[0], 0, todo[1..]))), p, pre, None)
  {
    IdleGood(lim, w, p, pre, Some(Drop(Deactivate, h, todo[0], 0, todo[1..])), None);
  }

  lemma GcGood(lim: Limits, w: World, p: OpId, op: Op, todo: seq<ObjId>)
    requires Ready(lim, w, p, op) && op.Gc? && GcList(w.objects, op.h.id, op.key, op.below, todo)
    ensures Good(lim, w, (w, if todo == [] then None else Some(Drop(Deactivate, op.h, todo[0], 0, todo[1..]))), p,
            Some(op), None)
  {
    if todo == [] {
      IdleGood(lim, w, p, Some(op), None, None);
    } else {
      forall x | x in todo ensures w.objects[x].ocookie.bcookie == op.h.bcookie { assert SpotOk(w, x); }
      DropStarts(lim, w, p, op.h, Some(op), todo);
    }
  }

  lemma BeginDeleteGood(lim: Limits, w: World, p: OpId, h: Handle, x: ObjId, key: string)
    requires WorldOk(lim, w) && Known(w, h) && IsCurrent(w.objects, OCookie(h.bcookie, key), x)
    requires forall y :: y in w.owner ==> w.owner[y] != p
    ensures Good(lim, w, (w, Some(Drop(Deactivate, h, x, 0, []))), p, None, None)
  {
    DropStarts(lim, w, p, h, None, [x]);
  }

  lemma DataFailsGood(lim: Limits, w: World, p: OpId, op: Op)
    requires Ready(lim, w, p, op) && op.Create? && op.pc == Data
    ensures Good(lim, w, (w, Some(op.(pc := UndoBucket))), p, Some(op), None)
  {
    IdleGood(lim, w, p, Some(op), Some(op.(pc := UndoBucket)), None);
  }

  lemma EffectGood(lim: Limits, s: Sys, st: Step, pre: Option<Op>, born: Option<ObjId>)
    requires Inv(lim, s) && Enabled(s, st)
    requires pre == if st.p in s.ops then Some(s.ops[st.p]) else None
    requires born == if st.BeginCreate? then Some(st.id) else None
    ensures Good(lim, s.w, Effect(lim, s, st), st.p, pre, born)
  {
    if st.p in s.ops { ReadyOp(lim, s, st.p); } else { FreshOp(lim, s, st.p); }
    match st {
      case BeginCreate(p, h, id, key, size) =>
        NotOwned(lim, s, id);
        InsertGood(lim, s.w, p, h, id, key, size);
      case BeginDelete(p, h, key, found) =>
        if found.Some? {
          BeginDeleteGood(lim, s.w, p, h, found.value, key);
        } else {
          IdleGood(lim, s.w, p, None, None, None);
        }
      case BeginNewBucket(p, h) => InsertBucketGood(lim, s.w, p, h);
      case BeginDropBucket(p, h) => IdleGood(lim, s.w, p, None, Some(MarkBucket(h)), None);
      case Go(p) => GoGood(lim, s.w, p, s.ops[p]);
      case DataFails(p) => DataFailsGood(lim, s.w, p, s.ops[p]);
      case GcQuery(p, todo) => GcGood(lim, s.w, p, s.ops[p], todo);
    }
  }

  lemma NotOwned(lim: Limits, s: Sys, id: ObjId)
    requires Inv(lim, s) && forall q :: q in s.ops ==> !Mentions(s.ops[q], id)
    ensures id !in s.w.owner
  {
    assert OwnerOk(s, id);
  }

  // A creation after a step is the same creation, or the one the step began.
  lemma CreatesOnly(lim: Limits, s: Sys, st: Step)
    requires Enabled(s, st)
    ensures var post := Effect(lim, s, st).1;
            post.Some? && post.value.Create? ==>
              (st.p in s.ops && Creates(s.ops[st.p], post.value.id)) || (st.BeginCreate? && post.value.id == st.id)
  {
  }

  lemma {:induction false} StepKeepsInv(lim: Limits, s: Sys, st: Step)
    requires Inv(lim, s) && Enabled(s, st)
    ensures Inv(lim, Apply(lim, s, st))
  {
    var pre := if st.p in s.ops then Some(s.ops[st.p]) else None;
    var born := if st.BeginCreate? then Some(st.id) else None;
    EffectGood(lim, s, st, pre, born);
    CreatesOnly(lim, s, st);
    var m := Effect(lim, s, st);
    Moves(lim, s, st.p, m.0, pre, m.1, born);
  }

  lemma {:induction false} RunKeepsInv(lim: Limits, run: seq<Sys>, i: nat)
    requires IsRun(lim, run) && i < |run|
    ensures Inv(lim, run[i])
  {
    InitOk(lim);
    if i > 0 {
      RunKeepsInv(lim, run, i - 1);
      assert Next(lim, run[i - 1], run[i - 1 + 1]);
      var st :| Enabled(run[i - 1], st) && run[i] == Apply(lim, run[i - 1], st);
      StepKeepsInv(lim, run[i - 1], st);
    }
  }

  lemma ReachableInv(lim: Limits, s: Sys)
    requires Reachable(lim, s)
    ensures Inv(lim, s)
  {
    var run :| IsRun(lim, run) && s == run[|run| - 1];
    RunKeepsInv(lim, run, |run| - 1);
  }
}
