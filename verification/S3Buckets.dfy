// Making and deleting buckets: when it works, whatever is interleaved with it.
module S3Buckets {
  import opened Common
  import opened Ledger
  import opened S3Db
  import opened S3Store
  import opened S3Inv
  import opened S3Safety

  // Between the insert of a record and its activation; between its deactivation and removal.
  predicate OnBucket(op: Op, b: BucketId) { (op.NewBucket? || op.EraseBucket?) && op.h.id == b }

  ghost predicate RecordAt(s: Sys, p: OpId) {
    p in s.ops && OnBucket(s.ops[p], s.ops[p].h.id) ==>
      && s.ops[p].h.id in s.w.buckets
      && s.w.buckets[s.ops[p].h.id].state == (if s.ops[p].NewBucket? then NoneState else Inactive)
      && s.w.buckets[s.ops[p].h.id].cntObjects == 0
  }

  ghost predicate AloneAt(s: Sys, p: OpId, q: OpId) {
    p in s.ops && q in s.ops && p != q && OnBucket(s.ops[p], s.ops[p].h.id) ==> !OnBucket(s.ops[q], s.ops[p].h.id)
  }

  ghost predicate BucketInv(s: Sys) {
    && (forall p {:trigger RecordAt(s, p)} :: RecordAt(s, p))
    && (forall p, q {:trigger AloneAt(s, p, q)} :: AloneAt(s, p, q))
  }

  // A record that is not Active is left alone by everybody but its own operation.
  ghost predicate Stays(w: World, op: Op, m: Moved, b: BucketId) {
    b in w.buckets && w.buckets[b].state != Active && !OnBucket(op, b) ==>
      b in m.0.buckets && m.0.buckets[b] == w.buckets[b]
  }

  lemma StaysCharging(lim: Limits, w: World, op: Op, b: BucketId)
    requires op.Create?
    ensures op.pc == AcctNs ==> Stays(w, op, StepAcctNs(lim, w, op), b)
    ensures op.pc == AcctBucket ==> Stays(w, op, StepAcctBucket(w, op), b)
  {
  }

  lemma StaysMaking(w: World, op: Op, b: BucketId)
    requires op.Create?
    ensures op.pc == Activate ==> Stays(w, op, StepActivate(w, op), b)
    ensures op.pc == Commit ==> Stays(w, op, StepCommit(w, op), b)
  {
  }

  lemma StaysUndoing(w: World, op: Op, b: BucketId)
    requires op.Create?
    ensures op.pc == UndoBucket ==> Stays(w, op, StepUndoBucket(w, op), b)
    ensures op.pc == UndoNs ==> Stays(w, op, StepUndoNs(w, op), b)
    ensures op.pc == Remove ==> Stays(w, op, StepRemove(w, op), b)
  {
  }

  lemma StaysDropping(w: World, p: OpId, op: Op, b: BucketId)
    requires op.Drop?
    ensures op.dpc == Deactivate ==> Stays(w, op, StepDeactivate(w, p, op), b)
    ensures op.dpc == UnacctBucket ==> Stays(w, op, StepUnacctBucket(w, op), b)
  {
  }

  lemma StaysErasing(w: World, op: Op, b: BucketId)
    requires op.Drop?
    ensures op.dpc == UnacctNs ==> Stays(w, op, StepUnacctNs(w, op), b)
    ensures op.dpc == Erase ==> Stays(w, op, StepErase(w, op), b)
  {
  }

  lemma CreateStays(lim: Limits, w: World, p: OpId, op: Op, b: BucketId)
    requires op.Create?
    ensures Stays(w, op, StepOp(lim, w, p, op), b)
  {
    StaysCharging(lim, w, op, b);
    StaysMaking(w, op, b);
    StaysUndoing(w, op, b);
  }

  lemma DropStays(lim: Limits, w: World, p: OpId, op: Op, b: BucketId)
    requires op.Drop?
    ensures Stays(w, op, StepOp(lim, w, p, op), b)
  {
    StaysDropping(w, p, op, b);
    StaysErasing(w, op, b);
  }

  lemma BucketOpStays(lim: Limits, w: World, p: OpId, op: Op, b: BucketId)
    requires op.NewBucket? || op.MarkBucket? || op.EraseBucket?
    ensures Stays(w, op, StepOp(lim, w, p, op), b)
  {
  }

  lemma OpStays(lim: Limits, w: World, p: OpId, op: Op, b: BucketId)
    requires !op.Gc?
    ensures Stays(w, op, StepOp(lim, w, p, op), b)
  {
    if op.Create? {
      CreateStays(lim, w, p, op, b);
    } else if op.Drop? {
      DropStays(lim, w, p, op, b);
    } else {
      BucketOpStays(lim, w, p, op, b);
    }
  }

  // No step of a creation or a drop begins work on a bucket record.
  lemma NotOnBucket(lim: Limits, w: World, p: OpId, op: Op)
    requires op.Create? || op.Drop?
    ensures var m := StepOp(lim, w, p, op); m.1.Some? ==> !m.1.value.NewBucket? && !m.1.value.EraseBucket?
  {
  }

  // What a step leaves of the record of another operation.
  lemma OthersRecord(lim: Limits, s: Sys, st: Step, q: OpId)
    requires Enabled(s, st) && BucketInv(s) && q in s.ops && q != st.p && OnBucket(s.ops[q], s.ops[q].h.id)
    ensures RecordAt(Apply(lim, s, st), q)
  {
    assert RecordAt(s, q);
    if st.Go? {
      assert AloneAt(s, q, st.p);
      OpStays(lim, s.w, st.p, s.ops[st.p], s.ops[q].h.id);
    }
  }

  // What it leaves of its own.
  lemma OwnRecord(lim: Limits, s: Sys, st: Step)
    requires Enabled(s, st) && BucketInv(s)
    ensures RecordAt(Apply(lim, s, st), st.p)
    ensures var t := Apply(lim, s, st);
            forall q :: q in s.ops && q != st.p && st.p in t.ops && OnBucket(t.ops[st.p], t.ops[st.p].h.id) ==>
              !OnBucket(s.ops[q], t.ops[st.p].h.id)
  {
    if st.Go? && (s.ops[st.p].Create? || s.ops[st.p].Drop?) { NotOnBucket(lim, s.w, st.p, s.ops[st.p]); }
    assert RecordAt(s, st.p);
    var t := Apply(lim, s, st);
    forall q | q in s.ops && q != st.p && st.p in t.ops && OnBucket(t.ops[st.p], t.ops[st.p].h.id)
      ensures !OnBucket(s.ops[q], t.ops[st.p].h.id)
    {
      assert RecordAt(s, q) && AloneAt(s, st.p, q);
    }
  }

  lemma {:induction false} StepKeepsBucketInv(lim: Limits, s: Sys, st: Step)
    requires Enabled(s, st) && BucketInv(s)
    ensures BucketInv(Apply(lim, s, st))
  {
    var t := Apply(lim, s, st);
    OwnRecord(lim, s, st);
    forall q ensures RecordAt(t, q) {
      if q in t.ops && q != st.p && OnBucket(t.ops[q], t.ops[q].h.id) { OthersRecord(lim, s, st, q); }
    }
    forall q, r ensures AloneAt(t, q, r) { assert AloneAt(s, q, r); }
  }

  lemma {:induction false} RunKeepsBucketInv(lim: Limits, run: seq<Sys>, i: nat)
    requires IsRun(lim, run) && i < |run|
    ensures BucketInv(run[i])
  {
    if i > 0 {
      RunKeepsBucketInv(lim, run, i - 1);
      assert Next(lim, run[i - 1], run[i - 1 + 1]);
      var st :| Enabled(run[i - 1], st) && run[i] == Apply(lim, run[i - 1], st);
      StepKeepsBucketInv(lim, run[i - 1], st);
    }
  }

  // Once its record is inserted a bucket is made, and once it is marked it goes; nothing that
  // is interleaved prevents either.
  lemma BegunBucketsWork(lim: Limits, s: Sys, p: OpId)
    requires Reachable(lim, s) && p in s.ops && !s.ops[p].Gc?
    ensures var h, t := s.ops[p].h, StepOp(lim, s.w, p, s.ops[p]).0;
            && (s.ops[p].NewBucket? ==> h.id in t.buckets && t.buckets[h.id].state == Active)
            && (s.ops[p].EraseBucket? ==> h.id in s.w.buckets && h.id !in t.buckets)
  {
    var run :| IsRun(lim, run) && s == run[|run| - 1];
    RunKeepsBucketInv(lim, run, |run| - 1);
    assert RecordAt(s, p);
  }

  // A deletion gets past its first step exactly when the bucket is Active and no object is
  // charged to it.
  lemma DeletedExactly(lim: Limits, s: Sys, p: OpId)
    requires Reachable(lim, s) && p in s.ops && s.ops[p].MarkBucket?
    ensures var h := s.ops[p].h;
            StepOp(lim, s.w, p, s.ops[p]).1 == Some(EraseBucket(h))
            <==> h.id in s.w.buckets && s.w.buckets[h.id].state == Active && OfBucket(s.w.bktLed, h.id) == map[]
  {
    ReachableInv(lim, s);
    var b := s.ops[p].h.id;
    assert BucketOk(s.w, b);
    var l := OfBucket(s.w.bktLed, b);
    assert |l| == 0 <==> l == map[];
  }

  // A bucket is begun exactly when no record has its name.
  lemma BegunExactly(lim: Limits, s: Sys, p: OpId, h: Handle)
    requires Reachable(lim, s) && Enabled(s, BeginNewBucket(p, h))
    ensures p in Apply(lim, s, BeginNewBucket(p, h)).ops
            <==> forall b :: b in s.w.buckets ==> s.w.buckets[b].bcookie != h.bcookie
  {
    ReachableInv(lim, s);
    assert BucketOk(s.w, h.id);
  }
}
