// What holds of the store over stretches of a run, between two of its states.
module S3Runs {
  import opened Common
  import opened Ledger
  import opened S3Db
  import opened S3Store
  import opened S3Inv
  import opened S3Safety
  import opened S3Theorems

  // One step of a run, asked for by its index.
  ghost predicate StepIn(lim: Limits, run: seq<Sys>, k: int) {
    0 < k < |run| ==> Inv(lim, run[k - 1]) && Next(lim, run[k - 1], run[k])
  }

  ghost predicate Steps(lim: Limits, run: seq<Sys>) {
    forall k {:trigger StepIn(lim, run, k)} :: StepIn(lim, run, k)
  }

  lemma RunSteps(lim: Limits, run: seq<Sys>)
    requires IsRun(lim, run)
    ensures Steps(lim, run)
  {
    forall k ensures StepIn(lim, run, k) {
      if 0 < k < |run| {
        RunKeepsInv(lim, run, k - 1);
        assert Next(lim, run[k - 1], run[k - 1 + 1]);
      }
    }
  }

  lemma StepAt(lim: Limits, run: seq<Sys>, k: nat) returns (st: Step)
    requires Steps(lim, run) && 0 < k < |run|
    ensures Enabled(run[k - 1], st) && run[k] == Apply(lim, run[k - 1], st)
  {
    assert StepIn(lim, run, k);
    st :| Enabled(run[k - 1], st) && run[k] == Apply(lim, run[k - 1], st);
  }

  // --- one incarnation of an object is uncharged once ---

  // Some creation of x is still before the charge of its bucket.
  ghost predicate Early(s: Sys, x: ObjId) {
    exists p :: p in s.ops && EarlyOp(s.ops[p], x)
  }

  predicate EarlyOp(op: Op, x: ObjId) {
    op.Create? && op.id == x && (op.pc == AcctNs || op.pc == AcctBucket)
  }

  // A record of x appears.
  predicate Inserts(s: Sys, t: Sys, x: ObjId) { x !in s.w.objects && x in t.w.objects }

  // A record of x appears somewhere between two states of a run.
  predicate InsertsBetween(run: seq<Sys>, i: nat, k: nat, x: ObjId)
    requires i <= k < |run|
  {
    i < k && (Inserts(run[k - 1], run[k], x) || InsertsBetween(run, i, k - 1, x))
  }

  lemma ChargedNotEarly(lim: Limits, s: Sys, x: ObjId)
    requires Inv(lim, s) && x in s.w.bktLed
    ensures !Early(s, x)
  {
    forall p | p in s.ops ensures !EarlyOp(s.ops[p], x) { assert OpAt(s, p); }
  }

  // What one step may do to the charge of x and to the operation that takes it.
  ghost predicate KeepsCharge(w: World, op: Op, m: Moved, x: ObjId) {
    && (x in m.0.bktLed && x !in w.bktLed ==> EarlyOp(op, x))
    && (m.1.Some? && EarlyOp(m.1.value, x) ==> EarlyOp(op, x))
  }

  lemma ChargingKeeps(lim: Limits, w: World, op: Op, x: ObjId)
    requires op.Create?
    ensures op.pc == AcctNs ==> KeepsCharge(w, op, StepAcctNs(lim, w, op), x)
    ensures op.pc == AcctBucket ==> KeepsCharge(w, op, StepAcctBucket(w, op), x)
  {
  }

  lemma MakingKeeps(w: World, op: Op, x: ObjId)
    requires op.Create?
    ensures op.pc == Activate ==> KeepsCharge(w, op, StepActivate(w, op), x)
    ensures op.pc == Commit ==> KeepsCharge(w, op, StepCommit(w, op), x)
  {
  }

  lemma UndoingKeeps(w: World, op: Op, x: ObjId)
    requires op.Create?
    ensures op.pc == UndoBucket ==> KeepsCharge(w, op, StepUndoBucket(w, op), x)
    ensures op.pc == UndoNs ==> KeepsCharge(w, op, StepUndoNs(w, op), x)
    ensures op.pc == Remove ==> KeepsCharge(w, op, StepRemove(w, op), x)
  {
  }

  lemma DroppingKeeps(w: World, p: OpId, op: Op, x: ObjId)
    requires op.Drop?
    ensures op.dpc == Deactivate ==> KeepsCharge(w, op, StepDeactivate(w, p, op), x)
    ensures op.dpc == UnacctBucket ==> KeepsCharge(w, op, StepUnacctBucket(w, op), x)
  {
  }

  lemma ErasingKeeps(w: World, op: Op, x: ObjId)
    requires op.Drop?
    ensures op.dpc == UnacctNs ==> KeepsCharge(w, op, StepUnacctNs(w, op), x)
    ensures op.dpc == Erase ==> KeepsCharge(w, op, StepErase(w, op), x)
  {
  }

  lemma OneStepCharge(lim: Limits, w: World, p: OpId, op: Op, x: ObjId)
    requires !op.Gc?
    ensures KeepsCharge(w, op, StepOp(lim, w, p, op), x)
  {
    if op.Create? {
      ChargingKeeps(lim, w, op, x);
      MakingKeeps(w, op, x);
      UndoingKeeps(w, op, x);
    } else if op.Drop? {
      DroppingKeeps(w, p, op, x);
      ErasingKeeps(w, op, x);
    }
  }

  lemma ChargeNeedsEarly(lim: Limits, s: Sys, st: Step, x: ObjId)
    requires Enabled(s, st) && x !in s.w.bktLed && !Early(s, x)
    ensures x !in Apply(lim, s, st).w.bktLed
    ensures Early(Apply(lim, s, st), x) ==> Inserts(s, Apply(lim, s, st), x)
  {
    if st.Go? { OneStepCharge(lim, s.w, st.p, s.ops[st.p], x); }
    var t := Apply(lim, s, st);
    forall p | p in t.ops && p != st.p ensures !EarlyOp(t.ops[p], x) { assert p in s.ops; }
  }

  // The step that takes the charge off leaves no creation of x before its charge.
  lemma UnchargeLeavesNone(lim: Limits, s: Sys, st: Step, x: ObjId)
    requires Inv(lim, s) && Enabled(s, st) && x in s.w.bktLed && x !in Apply(lim, s, st).w.bktLed
    ensures !Early(Apply(lim, s, st), x)
  {
    ChargedNotEarly(lim, s, x);
    if st.Go? { OneStepCharge(lim, s.w, st.p, s.ops[st.p], x); }
    var t := Apply(lim, s, st);
    forall p | p in t.ops ensures !EarlyOp(t.ops[p], x) {
      assert p != st.p ==> p in s.ops && !EarlyOp(s.ops[p], x);
    }
  }

  // x is off its bucket's counters, and no creation is about to put it there.
  ghost predicate Off(s: Sys, x: ObjId) { x !in s.w.bktLed && !Early(s, x) }

  lemma StaysOff(lim: Limits, s: Sys, t: Sys, x: ObjId)
    requires Next(lim, s, t) && Off(s, x) && !Inserts(s, t, x)
    ensures Off(t, x)
  {
    var st :| Enabled(s, st) && t == Apply(lim, s, st);
    ChargeNeedsEarly(lim, s, st, x);
  }

  lemma GoesOff(lim: Limits, s: Sys, t: Sys, x: ObjId)
    requires Inv(lim, s) && Next(lim, s, t) && x in s.w.bktLed && x !in t.w.bktLed
    ensures Off(t, x)
  {
    var st :| Enabled(s, st) && t == Apply(lim, s, st);
    UnchargeLeavesNone(lim, s, st, x);
  }

  lemma StaysOffAt(lim: Limits, run: seq<Sys>, k: nat, x: ObjId)
    requires Steps(lim, run) && 0 < k < |run| && Off(run[k - 1], x) && !Inserts(run[k - 1], run[k], x)
    ensures Off(run[k], x)
  {
    assert StepIn(lim, run, k);
    StaysOff(lim, run[k - 1], run[k], x);
  }

  lemma {:induction false} StaysOffBetween(lim: Limits, run: seq<Sys>, i: nat, k: nat, x: ObjId)
    requires Steps(lim, run) && i <= k < |run| && Off(run[i], x) && !InsertsBetween(run, i, k, x)
    ensures Off(run[k], x)
    decreases k
  {
    if i < k {
      StaysOffBetween(lim, run, i, k - 1, x);
      StaysOffAt(lim, run, k, x);
    }
  }

  // Once an object has been taken off its bucket's counters it is never on them again, and so
  // never taken off again, until a new record with its id is inserted.
  lemma UnchargedOnce(lim: Limits, run: seq<Sys>, i: nat, k: nat, x: ObjId)
    requires IsRun(lim, run) && i < k < |run|
    requires x in run[i].w.bktLed && x !in run[i + 1].w.bktLed && !InsertsBetween(run, i + 1, k, x)
    ensures x !in run[k].w.bktLed
  {
    RunSteps(lim, run);
    UnchargedIn(lim, run, i, k, x);
  }

  lemma UnchargedIn(lim: Limits, run: seq<Sys>, i: nat, k: nat, x: ObjId)
    requires Steps(lim, run) && i < k < |run|
    requires x in run[i].w.bktLed && x !in run[i + 1].w.bktLed && !InsertsBetween(run, i + 1, k, x)
    ensures x !in run[k].w.bktLed
  {
    assert StepIn(lim, run, i + 1);
    GoesOff(lim, run[i], run[i + 1], x);
    StaysOffBetween(lim, run, i + 1, k, x);
  }

  // --- a GC run, from its query to its return ---

  predicate IsActive(s: Sys, x: ObjId) { x in s.w.objects && s.w.objects[x].state == Active }

  // x was seen not Active behind run[i] and up to run[k].
  ghost predicate Retired(run: seq<Sys>, i: nat, k: nat, x: ObjId) {
    exists j :: i < j <= k < |run| && !IsActive(run[j], x)
  }

  // The operation works on the n-th of its list.
  predicate WorksOn(op: Op, todo: seq<ObjId>, n: nat) {
    op.Drop? && n < |todo| && op.id == todo[n] && op.rest == todo[n + 1..]
  }

  // p asked at run[i] and has been in flight since, up to run[k].
  ghost predicate Collecting(lim: Limits, run: seq<Sys>, i: nat, k: nat, p: OpId, todo: seq<ObjId>) {
    && i < k < |run| && Enabled(run[i], GcQuery(p, todo)) && run[i + 1] == Apply(lim, run[i], GcQuery(p, todo))
    && forall j :: i < j <= k ==> p in run[j].ops
  }

  // How far it has come: those before the n-th are done with.
  ghost predicate DoneBefore(run: seq<Sys>, i: nat, k: nat, p: OpId, todo: seq<ObjId>, n: nat) {
    && k < |run| && p in run[k].ops && WorksOn(run[k].ops[p], todo, n)
    && (forall m :: 0 <= m < n ==> Retired(run, i, k, todo[m]))
    && (run[k].ops[p].dpc != Deactivate ==> Retired(run, i, k, todo[n]))
  }

  lemma RetiredStays(run: seq<Sys>, i: nat, k: nat, x: ObjId)
    requires 0 < k < |run| && (Retired(run, i, k - 1, x) || (i < k && !IsActive(run[k], x)))
    ensures Retired(run, i, k, x)
  {
  }

  predicate SameTarget(op: Op, next: Option<Op>)
    requires op.Drop?
  {
    next.Some? && next.value.Drop? && next.value.h == op.h && next.value.id == op.id && next.value.rest == op.rest
  }

  // One step of a drop: it goes on with the same object or the next; nothing but its object
  // stops being Active, and that one does with the first step.
  ghost predicate DropsOne(w: World, op: Op, m: Moved)
    requires op.Drop?
  {
    && (m.1 == NextDrop(op) || SameTarget(op, m.1))
    && (forall y :: y in w.objects && w.objects[y].state == Active && y != op.id ==>
          y in m.0.objects && m.0.objects[y].state == Active)
    && (op.dpc == Deactivate && op.id in m.0.objects ==> m.0.objects[op.id].state != Active)
  }

  lemma DeactivateDropsOne(w: World, p: OpId, op: Op)
    requires op.Drop? && op.dpc == Deactivate
    ensures DropsOne(w, op, StepDeactivate(w, p, op))
  {
  }

  lemma UnacctDropsOne(w: World, op: Op)
    requires op.Drop? && op.dpc != Deactivate
    ensures op.dpc == UnacctBucket ==> DropsOne(w, op, StepUnacctBucket(w, op))
    ensures op.dpc == UnacctNs ==> DropsOne(w, op, StepUnacctNs(w, op))
  {
  }

  lemma EraseDropsOne(w: World, op: Op)
    requires op.Drop? && op.dpc == Erase
    ensures DropsOne(w, op, StepErase(w, op))
  {
  }

  lemma DropStep(lim: Limits, w: World, p: OpId, op: Op)
    requires op.Drop?
    ensures DropsOne(w, op, StepOp(lim, w, p, op))
  {
    match op.dpc {
      case Deactivate => DeactivateDropsOne(w, p, op);
      case UnacctBucket => UnacctDropsOne(w, op);
      case UnacctNs => UnacctDropsOne(w, op);
      case Erase => EraseDropsOne(w, op);
    }
  }

  lemma ListMoves(op: Op, next: Op, todo: seq<ObjId>, n: nat)
    requires WorksOn(op, todo, n) && NextDrop(op) == Some(next)
    ensures WorksOn(next, todo, n + 1) && next.dpc == Deactivate
  {
  }

  lemma OthersKeepOp(lim: Limits, s: Sys, st: Step, p: OpId)
    requires Enabled(s, st) && p in s.ops && st.p != p
    ensures p in Apply(lim, s, st).ops && Apply(lim, s, st).ops[p] == s.ops[p]
  {
  }

  lemma {:induction false} GcProgress(lim: Limits, run: seq<Sys>, i: nat, k: nat, p: OpId, todo: seq<ObjId>)
    returns (n: nat)
    requires Steps(lim, run) && Collecting(lim, run, i, k, p, todo)
    ensures DoneBefore(run, i, k, p, todo, n)
    decreases k
  {
    if k == i + 1 {
      n := 0;
    } else {
      n := GcProgress(lim, run, i, k - 1, p, todo);
      var st := StepAt(lim, run, k);
      if st.p != p {
        OthersKeepOp(lim, run[k - 1], st, p);
        KeepsDone(run, i, k, todo, n + 1);
      } else {
        n := OwnStep(lim, run, i, k, p, todo, n, st);
      }
    }
  }

  lemma KeepsDone(run: seq<Sys>, i: nat, k: nat, todo: seq<ObjId>, n: nat)
    requires 0 < k < |run| && n <= |todo|
    ensures forall m :: 0 <= m < n && Retired(run, i, k - 1, todo[m]) ==> Retired(run, i, k, todo[m])
  {
    forall m | 0 <= m < n && Retired(run, i, k - 1, todo[m]) ensures Retired(run, i, k, todo[m]) {
      RetiredStays(run, i, k, todo[m]);
    }
  }

  // After its own step on the n-th object that one is retired.
  lemma OwnRetires(lim: Limits, run: seq<Sys>, i: nat, k: nat, p: OpId, todo: seq<ObjId>, n: nat, st: Step)
    requires i + 1 < k < |run| && DoneBefore(run, i, k - 1, p, todo, n)
    requires Enabled(run[k - 1], st) && run[k] == Apply(lim, run[k - 1], st) && st.p == p
    ensures Retired(run, i, k, todo[n]) && st.Go?
  {
    DropStep(lim, run[k - 1].w, p, run[k - 1].ops[p]);
    RetiredStays(run, i, k, todo[n]);
  }

  lemma OwnStep(lim: Limits, run: seq<Sys>, i: nat, k: nat, p: OpId, todo: seq<ObjId>, n: nat, st: Step)
    returns (m: nat)
    requires i + 1 < k < |run| && DoneBefore(run, i, k - 1, p, todo, n) && p in run[k].ops
    requires Enabled(run[k - 1], st) && run[k] == Apply(lim, run[k - 1], st) && st.p == p
    ensures DoneBefore(run, i, k, p, todo, m)
  {
    OwnRetires(lim, run, i, k, p, todo, n, st);
    KeepsDone(run, i, k, todo, n);
    var op, next := run[k - 1].ops[p], run[k].ops[p];
    DropStep(lim, run[k - 1].w, p, op);
    if NextDrop(op) == Some(next) {
      ListMoves(op, next, todo, n);
      m := n + 1;
    } else {
      m := n;
    }
  }

  // When a GC operation has returned, every version on its list has been retired since its
  // query, by it or by others, whatever was interleaved.
  lemma GcRetiresItsList(lim: Limits, run: seq<Sys>, i: nat, k: nat, p: OpId, todo: seq<ObjId>)
    requires IsRun(lim, run) && i + 1 < k < |run| && Collecting(lim, run, i, k - 1, p, todo) && p !in run[k].ops
    ensures forall m :: 0 <= m < |todo| ==> Retired(run, i, k, todo[m])
  {
    RunSteps(lim, run);
    var n := GcProgress(lim, run, i, k - 1, p, todo);
    var st := StepAt(lim, run, k);
    if st.p != p { OthersKeepOp(lim, run[k - 1], st, p); }
    OwnRetires(lim, run, i, k, p, todo, n, st);
    KeepsDone(run, i, k, todo, n);
    DropStep(lim, run[k - 1].w, p, run[k - 1].ops[p]);
    assert n == |todo| - 1;
  }

  // And no step of it takes a version that is not on the list.
  lemma GcTakesOnlyItsList(lim: Limits, run: seq<Sys>, i: nat, k: nat, p: OpId, todo: seq<ObjId>, st: Step, y: ObjId)
    requires IsRun(lim, run) && k + 1 < |run| && Collecting(lim, run, i, k, p, todo)
    requires Enabled(run[k], st) && run[k + 1] == Apply(lim, run[k], st) && st.p == p
    requires IsActive(run[k], y) && !IsActive(run[k + 1], y)
    ensures y in todo
  {
    RunSteps(lim, run);
    var n := GcProgress(lim, run, i, k, p, todo);
    DropStep(lim, run[k].w, p, run[k].ops[p]);
  }

  // --- stale handles ---

  // No bucket name was ever used by two bucket records.
  ghost predicate NamesUsedOnce(w: World) {
    forall a, b :: a in w.known && b in w.known && w.known[a].bcookie == w.known[b].bcookie ==> a == b
  }

  lemma KnownGrows(lim: Limits, s: Sys, st: Step)
    requires Enabled(s, st)
    ensures forall b :: b in s.w.known
              ==> b in Apply(lim, s, st).w.known && Apply(lim, s, st).w.known[b] == s.w.known[b]
  {
    if st.Go? { KnownStays(lim, s.w, st.p, s.ops[st.p]); }
  }

  lemma KnownStaysCharging(lim: Limits, w: World, op: Op)
    requires op.Create?
    ensures StepAcctNs(lim, w, op).0.known == w.known
    ensures StepAcctBucket(w, op).0.known == w.known
    ensures StepActivate(w, op).0.known == w.known
    ensures StepCommit(w, op).0.known == w.known
  {
  }

  lemma KnownStaysUndoing(w: World, op: Op)
    requires op.Create?
    ensures StepUndoBucket(w, op).0.known == w.known
    ensures StepUndoNs(w, op).0.known == w.known
    ensures StepRemove(w, op).0.known == w.known
  {
  }

  lemma KnownStaysDropping(w: World, p: OpId, op: Op)
    requires op.Drop?
    ensures StepDeactivate(w, p, op).0.known == w.known
    ensures StepUnacctBucket(w, op).0.known == w.known
  {
  }

  lemma KnownStaysErasing(w: World, op: Op)
    requires op.Drop?
    ensures StepUnacctNs(w, op).0.known == w.known
    ensures StepErase(w, op).0.known == w.known
  {
  }

  lemma KnownStays(lim: Limits, w: World, p: OpId, op: Op)
    requires !op.Gc?
    ensures StepOp(lim, w, p, op).0.known == w.known
  {
    if op.Create? {
      KnownStaysCharging(lim, w, op);
      KnownStaysUndoing(w, op);
    } else if op.Drop? {
      KnownStaysDropping(w, p, op);
      KnownStaysErasing(w, op);
    }
  }

  lemma StrandingNeedsTwo(lim: Limits, s: Sys, st: Step)
    requires Inv(lim, s) && Enabled(s, st) && Strands(s, st)
    ensures !NamesUsedOnce(s.w)
  {
    var op := s.ops[st.p];
    assert OpAt(s, st.p) && SpotOk(s.w, op.id) && BucketOk(s.w, op.h.id) && Mentions(op, op.id);
  }

  lemma StrandsNoMore(lim: Limits, s: Sys, t: Sys)
    requires Reachable(lim, s) && Next(lim, s, t) && NamesUsedOnce(t.w)
    ensures NamesUsedOnce(s.w) && t.w.stranded == s.w.stranded
  {
    ReachableInv(lim, s);
    var st :| Enabled(s, st) && t == Apply(lim, s, st);
    KnownGrows(lim, s, st);
    StrandsExactly(lim, s, st);
    if Strands(s, st) { StrandingNeedsTwo(lim, s, st); }
  }

  // Stranded objects need a bucket name that was used again after its bucket was deleted.
  lemma {:induction false} NamesUsedOnceStrandNone(lim: Limits, run: seq<Sys>, k: nat)
    requires IsRun(lim, run) && k < |run| && NamesUsedOnce(run[k].w)
    ensures run[k].w.stranded == {}
    decreases k
  {
    if k > 0 {
      assert Next(lim, run[k - 1], run[k - 1 + 1]);
      Prefix(lim, run, k - 1);
      StrandsNoMore(lim, run[k - 1], run[k]);
      NamesUsedOnceStrandNone(lim, run, k - 1);
    }
  }

  lemma Prefix(lim: Limits, run: seq<Sys>, k: nat)
    requires IsRun(lim, run) && k < |run|
    ensures Reachable(lim, run[k])
  {
    var r := run[..k + 1];
    forall i | 0 <= i < |r| - 1 ensures Next(lim, r[i], r[i + 1]) { assert Next(lim, run[i], run[i + 1]); }
    assert IsRun(lim, r) && r[|r| - 1] == run[k];
  }

  // So with names used once, and nothing in flight, a bucket counts its Active objects exactly.
  lemma QuietBucketExact(lim: Limits, s: Sys, b: BucketId)
    requires Reachable(lim, s) && s.ops == map[] && b in s.w.buckets && NamesUsedOnce(s.w)
    ensures s.w.buckets[b].cntObjects == |Records(s.w, b, Active)|
    ensures s.w.buckets[b].cntBytes == Bytes(Records(s.w, b, Active))
  {
    var run :| IsRun(lim, run) && s == run[|run| - 1];
    NamesUsedOnceStrandNone(lim, run, |run| - 1);
    QuietBucket(lim, s, b);
    var ina := Records(s.w, b, Inactive);
    assert |ina| == 0;
    assert ina == map[];
  }
}
