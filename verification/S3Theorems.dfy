// What the invariant says about the store's own records, in every reachable state.
module S3Theorems {
  import opened Common
  import opened Ledger
  import opened S3Db
  import opened S3Store
  import opened S3Inv
  import opened S3Steps
  import opened S3Safety

  // --- bucket counters ---

  // Operation p holds the charge of x: it created x and has not handed it over or given
  // the charge back, or it has deactivated x and not yet unaccounted it.
  predicate Holds(op: Op, x: ObjId) {
    || (op.Create? && !op.activated && op.id == x && (op.pc == Data || op.pc == Activate || op.pc == UndoBucket))
    || (op.Drop? && op.dpc == UnacctBucket && op.id == x)
  }

  // The ledger behind a bucket's counters is exactly the Active records, the records some
  // operation still has to settle, and the records a failed delete left behind.
  lemma ChargedRecords(lim: Limits, s: Sys, x: ObjId)
    requires Reachable(lim, s)
    ensures x in s.w.bktLed <==>
              && x in s.w.objects
              && (s.w.objects[x].state == Active || x in s.w.stranded || (exists p :: p in s.ops && Holds(s.ops[p], x)))
    ensures x in s.w.bktLed ==>
            s.w.bktLed[x].bucket == s.w.objects[x].bucket
            && s.w.bktLed[x].size == s.w.objects[x].size
  {
    ReachableInv(lim, s);
    assert SpotOk(s.w, x) && OwnerOk(s, x);
    if x in s.w.owner {
      var p := s.w.owner[x];
      assert OpAt(s, p);
      if x in s.w.bktLed { assert Holds(s.ops[p], x); }
    }
    forall p | p in s.ops && Holds(s.ops[p], x) ensures x in s.w.bktLed { assert OpAt(s, p); }
  }

  lemma BucketCounters(lim: Limits, s: Sys, b: BucketId)
    requires Reachable(lim, s) && b in s.w.buckets
    ensures s.w.buckets[b].cntObjects == |OfBucket(s.w.bktLed, b)|
    ensures s.w.buckets[b].cntBytes == Bytes(OfBucket(s.w.bktLed, b))
    ensures s.w.buckets[b].state != Inactive ==> s.w.buckets[b].ref == |Window(s.ops, b)|
  {
    ReachableInv(lim, s);
    assert BucketOk(s.w, b) && RefAt(s, b);
  }

  // No object is ever Active in a bucket that is not Active, although deletion looks
  // only at cnt-objects.
  lemma ActiveInActiveBucket(lim: Limits, s: Sys, x: ObjId)
    requires Reachable(lim, s) && x in s.w.objects && s.w.objects[x].state == Active
    ensures s.w.objects[x].bucket in s.w.buckets && s.w.buckets[s.w.objects[x].bucket].state == Active
  {
    ReachableInv(lim, s);
    assert SpotOk(s.w, x);
  }

  // --- namespace counters ---

  ghost function TotalObjects(bs: Buckets, which: set<BucketId>): int
    requires which <= bs.Keys
  {
    if which == {} then 0 else var b :| b in which; bs[b].cntObjects + TotalObjects(bs, which - {b})
  }

  ghost function TotalBytes(bs: Buckets, which: set<BucketId>): int
    requires which <= bs.Keys
  {
    if which == {} then 0 else var b :| b in which; bs[b].cntBytes + TotalBytes(bs, which - {b})
  }

  ghost function OfSet(l: Charges, which: set<BucketId>): Charges {
    map x | x in l && l[x].bucket in which :: l[x]
  }

  lemma SplitOff(l: Charges, which: set<BucketId>, b: BucketId)
    requires b in which
    ensures |OfSet(l, which)| == |OfBucket(l, b)| + |OfSet(l, which - {b})|
    ensures Bytes(OfSet(l, which)) == Bytes(OfBucket(l, b)) + Bytes(OfSet(l, which - {b}))
  {
    BytesSplit(OfBucket(l, b), OfSet(l, which));
    assert Beyond(OfBucket(l, b), OfSet(l, which)) == OfSet(l, which - {b});
  }

  lemma {:induction false} SumOverBuckets(w: World, which: set<BucketId>)
    requires which <= w.buckets.Keys && forall b {:trigger BucketOk(w, b)} :: BucketOk(w, b)
    ensures TotalObjects(w.buckets, which) == |OfSet(w.bktLed, which)|
    ensures TotalBytes(w.buckets, which) == Bytes(OfSet(w.bktLed, which))
    decreases |which|
  {
    if which == {} {
      assert OfSet(w.bktLed, which) == map[];
    } else {
      SumObjects(w, which);
      SumBytes(w, which);
    }
  }

  lemma {:induction false} SumObjects(w: World, which: set<BucketId>)
    requires which != {} && which <= w.buckets.Keys && forall b {:trigger BucketOk(w, b)} :: BucketOk(w, b)
    ensures TotalObjects(w.buckets, which) == |OfSet(w.bktLed, which)|
    decreases |which|, 0
  {
    var b :| b in which && TotalObjects(w.buckets, which)
        == w.buckets[b].cntObjects + TotalObjects(w.buckets, which - {b});
    assert BucketOk(w, b);
    SplitOff(w.bktLed, which, b);
    SumOverBuckets(w, which - {b});
  }

  lemma {:induction false} SumBytes(w: World, which: set<BucketId>)
    requires which != {} && which <= w.buckets.Keys && forall b {:trigger BucketOk(w, b)} :: BucketOk(w, b)
    ensures TotalBytes(w.buckets, which) == Bytes(OfSet(w.bktLed, which))
    decreases |which|, 0
  {
    var b :| b in which && TotalBytes(w.buckets, which) == w.buckets[b].cntBytes + TotalBytes(w.buckets, which - {b});
    assert BucketOk(w, b);
    SplitOff(w.bktLed, which, b);
    SumOverBuckets(w, which - {b});
  }

  ghost function BucketsOf(w: World, n: NsId): set<BucketId> {
    set b | b in w.buckets && w.buckets[b].ns == n
  }

  // Charged to the namespace and not to the bucket.
  ghost function Between(w: World, n: NsId): Charges {
    Beyond(OfNs(w.bktLed, n), OfNs(w.nsLed, n))
  }

  // Operation p stands between the two charge steps of x, or between the two uncharge steps.
  predicate Straddles(op: Op, x: ObjId) {
    || (op.Create? && !op.activated && op.id == x && (op.pc == AcctBucket || op.pc == UndoNs))
    || (op.Drop? && op.dpc == UnacctNs && op.id == x)
  }

  // A namespace's counters are the sums over its buckets plus what the operations between
  // their two steps account for, so they are never below the sums.
  lemma NamespaceCounters(lim: Limits, s: Sys, n: NsId)
    requires Reachable(lim, s) && n in s.w.stats
    ensures BucketsOf(s.w, n) <= s.w.buckets.Keys
    ensures s.w.stats[n].cntObjects == TotalObjects(s.w.buckets, BucketsOf(s.w, n)) + |Between(s.w, n)|
    ensures s.w.stats[n].cntBytes == TotalBytes(s.w.buckets, BucketsOf(s.w, n)) + Bytes(Between(s.w, n))
    ensures forall x :: x in Between(s.w, n) ==> exists p :: p in s.ops && Straddles(s.ops[p], x)
  {
    ReachableInv(lim, s);
    var w := s.w;
    assert NsOk(lim, w, n);
    forall x | x in w.bktLed ensures x in w.nsLed && w.nsLed[x] == w.bktLed[x] { assert SpotOk(w, x); }
    BytesSplit(OfNs(w.bktLed, n), OfNs(w.nsLed, n));
    SumOverBuckets(w, BucketsOf(w, n));
    NsIsItsBuckets(lim, w, n);
    forall x | x in Between(w, n) ensures exists p :: p in s.ops && Straddles(s.ops[p], x) {
      Straddled(lim, s, x);
    }
  }

  lemma NsIsItsBuckets(lim: Limits, w: World, n: NsId)
    requires WorldOk(lim, w)
    ensures OfSet(w.bktLed, BucketsOf(w, n)) == OfNs(w.bktLed, n)
  {
    forall x | x in w.bktLed ensures w.bktLed[x].bucket in BucketsOf(w, n) <==> w.bktLed[x].ns == n {
      assert SpotOk(w, x);
    }
  }

  lemma Straddled(lim: Limits, s: Sys, x: ObjId)
    requires Inv(lim, s) && x in s.w.nsLed && x !in s.w.bktLed
    ensures exists p :: p in s.ops && Straddles(s.ops[p], x)
  {
    assert SpotOk(s.w, x) && OwnerOk(s, x);
    var p := s.w.owner[x];
    assert OpAt(s, p);
    assert Straddles(s.ops[p], x);
  }

  // --- no operation in flight ---

  // The records of bucket b in one state, as charges.
  ghost function Records(w: World, b: BucketId, st: State): Charges
    requires b in w.buckets
  {
    map x | x in w.objects && w.objects[x].bucket == b && w.objects[x].state == st
          :: Charge(b, w.buckets[b].ns, w.objects[x].size)
  }

  // A record of bucket b that a delete with another bucket's handle left behind.
  predicate LeftBehind(w: World, b: BucketId, x: ObjId) {
    x in w.stranded && x in w.objects && w.objects[x].bucket == b
  }

  // When nothing is in flight a bucket counts its Active objects and the Inactive ones that
  // a failed delete left behind; so it counts the Active ones exactly if and only if no
  // delete left one behind.
  lemma QuietBucket(lim: Limits, s: Sys, b: BucketId)
    requires Reachable(lim, s) && s.ops == map[] && b in s.w.buckets
    ensures s.w.buckets[b].cntObjects == |Records(s.w, b, Active)| + |Records(s.w, b, Inactive)|
    ensures s.w.buckets[b].cntBytes == Bytes(Records(s.w, b, Active)) + Bytes(Records(s.w, b, Inactive))
    ensures s.w.buckets[b].state != Inactive ==> s.w.buckets[b].ref == 0
    ensures s.w.buckets[b].cntObjects == |Records(s.w, b, Active)| <==> forall x :: !LeftBehind(s.w, b, x)
  {
    ReachableInv(lim, s);
    assert BucketOk(s.w, b) && RefAt(s, b);
    assert Window(s.ops, b) == {};
    QuietLedger(lim, s, b);
    BytesSplit(Records(s.w, b, Active), OfBucket(s.w.bktLed, b));
    var ina := Records(s.w, b, Inactive);
    forall x ensures x in ina <==> LeftBehind(s.w, b, x) { QuietSpot(lim, s, x); assert SpotOk(s.w, x); }
    if |ina| == 0 {
      assert ina == map[];
    } else {
      var x :| x in ina;
    }
  }

  lemma QuietLedger(lim: Limits, s: Sys, b: BucketId)
    requires Inv(lim, s) && s.ops == map[] && b in s.w.buckets
    ensures Within(Records(s.w, b, Active), OfBucket(s.w.bktLed, b))
    ensures Beyond(Records(s.w, b, Active), OfBucket(s.w.bktLed, b)) == Records(s.w, b, Inactive)
  {
    var act, ina, led := Records(s.w, b, Active), Records(s.w, b, Inactive), OfBucket(s.w.bktLed, b);
    forall x ensures x in led <==> x in act || x in ina { QuietSpot(lim, s, x); assert SpotOk(s.w, x); }
    forall x | x in led ensures led[x] == Charge(b, s.w.buckets[b].ns, s.w.objects[x].size) { assert SpotOk(s.w, x); }
  }

  lemma QuietSpot(lim: Limits, s: Sys, x: ObjId)
    requires Inv(lim, s) && s.ops == map[]
    ensures x !in s.w.owner
    ensures x in s.w.nsLed <==> x in s.w.bktLed
    ensures x in s.w.bktLed <==> x in s.w.objects
    ensures x in s.w.objects ==> s.w.objects[x].state != NoneState
  {
    assert SpotOk(s.w, x) && OwnerOk(s, x);
  }

  lemma QuietNamespace(lim: Limits, s: Sys, n: NsId)
    requires Reachable(lim, s) && s.ops == map[] && n in s.w.stats
    ensures BucketsOf(s.w, n) <= s.w.buckets.Keys
    ensures s.w.stats[n].cntObjects == TotalObjects(s.w.buckets, BucketsOf(s.w, n))
    ensures s.w.stats[n].cntBytes == TotalBytes(s.w.buckets, BucketsOf(s.w, n))
  {
    NamespaceCounters(lim, s, n);
    assert Between(s.w, n) == map[];
  }

  // --- the quota ---

  // The Active objects of a namespace.
  ghost function ActiveOf(w: World, n: NsId): Charges {
    map x | x in w.objects && w.objects[x].state == Active && w.objects[x].bucket in w.buckets
        && w.buckets[w.objects[x].bucket].ns == n
          :: Charge(w.objects[x].bucket, n, w.objects[x].size)
  }

  // Whatever the interleaving of the add-check-undo steps, admitted objects never exceed
  // the limit together, and the Active objects are among them.
  lemma QuotaHolds(lim: Limits, s: Sys, n: NsId)
    requires Reachable(lim, s) && n in lim && lim[n] != 0
    ensures Bytes(OfNs(s.w.admLed, n)) <= lim[n]
    ensures Bytes(ActiveOf(s.w, n)) <= lim[n]
  {
    ReachableInv(lim, s);
    assert NsOk(lim, s.w, n);
    forall x | x in ActiveOf(s.w, n) ensures x in OfNs(s.w.admLed, n) && OfNs(s.w.admLed, n)[x] == ActiveOf(s.w, n)[x] {
      assert SpotOk(s.w, x);
    }
    BytesMonotone(ActiveOf(s.w, n), OfNs(s.w.admLed, n));
  }

  // --- rovers and the current version ---

  // A creation is given a rover that no creation in its bucket was given before, and the
  // rovers of one bucket are never given twice.
  lemma RoversDistinct(lim: Limits, s: Sys, x: ObjId, y: ObjId)
    requires Reachable(lim, s) && x in s.w.objects && y in s.w.objects && x != y
    requires s.w.objects[x].state == Active && s.w.objects[y].state == Active
             && s.w.objects[x].bucket == s.w.objects[y].bucket
    ensures s.w.objects[x].rover != s.w.objects[y].rover
  {
    ReachableInv(lim, s);
    assert SpotOk(s.w, x) && SpotOk(s.w, y);
  }

  lemma GrantIsNew(lim: Limits, s: Sys, p: OpId)
    requires Reachable(lim, s) && p in s.ops && s.ops[p].Create? && s.ops[p].pc == AcctBucket
    requires var post := StepAcctBucket(s.w, s.ops[p]).1.value; post.pc == Data
    ensures var b, r := s.ops[p].h.id, StepAcctBucket(s.w, s.ops[p]).1.value.rover;
            && (b, r) !in s.w.grants && (forall q :: (b, q) in s.w.grants ==> q < r)
            && StepAcctBucket(s.w, s.ops[p]).0.grants == s.w.grants[(b, r) := s.ops[p].id]
  {
    ReachableInv(lim, s);
    var b := s.ops[p].h.id;
    forall q | (b, q) in s.w.grants ensures q <= s.w.buckets[b].rover { assert GrantOk(s.w, b, q); }
  }

  // FindCurObject is unambiguous.
  lemma CurrentUnique(lim: Limits, s: Sys, c: OCookie, x: ObjId, y: ObjId)
    requires Reachable(lim, s) && IsCurrent(s.w.objects, c, x) && IsCurrent(s.w.objects, c, y)
    ensures x == y
  {
    ReachableInv(lim, s);
    assert SpotOk(s.w, x) && SpotOk(s.w, y);
    assert CookieOk(s.w, s.w.objects[x].bucket, s.w.objects[y].bucket);
    assert BucketOk(s.w, s.w.objects[x].bucket) && BucketOk(s.w, s.w.objects[y].bucket);
  }

  // What the sequential code asks for holds between operations, and at any other time.
  lemma EveryBucketTidy(lim: Limits, s: Sys, b: BucketId)
    requires Reachable(lim, s) && b in s.w.buckets
    ensures b in s.w.known && Tidy(s.w.objects, s.w.buckets, s.w.known[b])
  {
    ReachableInv(lim, s);
    assert BucketOk(s.w, b);
    forall x | x in s.w.objects && s.w.objects[x].state == Active
      ensures s.w.objects[x].bucket == b ==> s.w.objects[x].rover <= s.w.buckets[b].rover
      ensures s.w.objects[x].ocookie.bcookie == s.w.known[b].bcookie <==> s.w.objects[x].bucket == b
    {
      var c := s.w.objects[x].bucket;
      assert SpotOk(s.w, x) && BucketOk(s.w, c) && CookieOk(s.w, b, c) && GrantOk(s.w, c, s.w.objects[x].rover);
    }
  }

  // --- version GC ---

  // The threshold is the rover of the last creation charged in the bucket before the commit. It
  // is at least the creation's own; and it is above the rover of an Active object, the new one
  // or any other, exactly when a creation has been charged later than that object.
  lemma GcThreshold(lim: Limits, s: Sys, p: OpId)
    requires Reachable(lim, s) && p in s.ops && s.ops[p].Create? && s.ops[p].pc == Commit
    ensures var post := StepCommit(s.w, s.ops[p]).1.value;
            var b := s.ops[p].h.id;
            post.Gc? ==>
              && post.below >= s.ops[p].rover
              && (b, post.below) in s.w.grants && (forall r :: (b, r) in s.w.grants ==> r <= post.below)
              && (post.below > s.ops[p].rover <==> exists r :: r > s.ops[p].rover && (b, r) in s.w.grants)
              && forall x :: x in s.w.objects && s.w.objects[x].state == Active && s.w.objects[x].bucket == b ==>
                   (post.below > s.w.objects[x].rover
                    <==> exists r :: r > s.w.objects[x].rover && (b, r) in s.w.grants)
  {
    ReachableInv(lim, s);
    var op := s.ops[p];
    assert OpAt(s, p) && GrantOk(s.w, op.h.id, op.rover);
    if op.h.id in s.w.buckets {
      assert GrantOk(s.w, op.h.id, s.w.buckets[op.h.id].rover);
      forall r | (op.h.id, r) in s.w.grants ensures r <= s.w.buckets[op.h.id].rover { assert GrantOk(s.w, op.h.id, r); }
    }
  }

  // A GC run never takes the current version of its key when its threshold is the rover of
  // an Active version of that key; in general it takes it exactly when it is below.
  lemma GcSparesCurrent(lim: Limits, s: Sys, h: Handle, key: string, below: int, todo: seq<ObjId>, x: ObjId)
    requires Reachable(lim, s) && Known(s.w, h) && GcList(s.w.objects, h.id, key, below, todo)
    requires IsCurrent(s.w.objects, OCookie(h.bcookie, key), x) && s.w.objects[x].bucket == h.id
    ensures x in todo <==> s.w.objects[x].rover < below
    ensures (exists y :: IsVersion(s.w.objects, OCookie(h.bcookie, key), y) && s.w.objects[y].rover == below)
            ==> x !in todo
    // when the current version is below, every version of the key is, and all are taken
    ensures x in todo ==> forall y :: IsVersion(s.w.objects, OCookie(h.bcookie, key), y) ==> y in todo
  {
    ReachableInv(lim, s);
    forall y | IsVersion(s.w.objects, OCookie(h.bcookie, key), y)
      ensures s.w.objects[y].bucket == h.id
    {
      assert SpotOk(s.w, x) && SpotOk(s.w, y);
      assert CookieOk(s.w, s.w.objects[x].bucket, s.w.objects[y].bucket);
      assert BucketOk(s.w, s.w.objects[x].bucket) && BucketOk(s.w, s.w.objects[y].bucket);
    }
  }

  // Together: between the commit at s that starts it and its query at t, a collection is
  // given the current version exactly when a creation charged before the commit is younger.
  lemma GcTakesCurrentExactly(lim: Limits, s: Sys, p: OpId, t: Sys, todo: seq<ObjId>, x: ObjId)
    requires Reachable(lim, s) && p in s.ops && s.ops[p].Create? && s.ops[p].pc == Commit
    requires StepCommit(s.w, s.ops[p]).1.value.Gc?
    requires Reachable(lim, t) && Known(t.w, s.ops[p].h)
    requires var h, key := s.ops[p].h, s.ops[p].key;
             && GcList(t.w.objects, h.id, key, StepCommit(s.w, s.ops[p]).1.value.below, todo)
             && IsCurrent(t.w.objects, OCookie(h.bcookie, key), x) && t.w.objects[x].bucket == h.id
    ensures x in todo <==> exists r :: r > t.w.objects[x].rover && (s.ops[p].h.id, r) in s.w.grants
  {
    var op, below := s.ops[p], StepCommit(s.w, s.ops[p]).1.value.below;
    GcThreshold(lim, s, p);
    GcSparesCurrent(lim, t, op.h, op.key, below, todo, x);
  }

  // The step that takes an object off its bucket's counters finds it on the ledger, and no
  // other operation in flight works on it; that it stays off is S3Runs.UnchargedOnce.
  lemma UnaccountedOnce(lim: Limits, s: Sys, p: OpId)
    requires Reachable(lim, s) && p in s.ops && s.ops[p].Drop? && s.ops[p].dpc == UnacctBucket
    ensures var op, m := s.ops[p], StepUnacctBucket(s.w, s.ops[p]);
            && op.id in s.w.bktLed && op.id in s.w.objects
            && (op.id !in m.0.bktLed <==> s.w.objects[op.id].bucket == op.h.id)
            && (op.id !in m.0.bktLed ==>
                  && op.h.id in s.w.buckets && op.h.id in m.0.buckets
                  && m.0.buckets[op.h.id].cntObjects == s.w.buckets[op.h.id].cntObjects - 1
                  && m.0.buckets[op.h.id].cntBytes == s.w.buckets[op.h.id].cntBytes - s.w.objects[op.id].size)
            && forall q :: q in s.ops && q != p ==> !Holds(s.ops[q], op.id)
  {
    ReachableInv(lim, s);
    ReadyOp(lim, s, p);
    var op := s.ops[p];
    assert SpotOk(s.w, op.id) && BucketOk(s.w, op.h.id) && BucketOk(s.w, s.w.objects[op.id].bucket);
    assert CookieOk(s.w, op.h.id, s.w.objects[op.id].bucket);
    UnacctBucketWorks(s.w, p, op);
    forall q | q in s.ops && q != p ensures !Holds(s.ops[q], op.id) { assert OpAt(s, q); }
  }

  // --- which database calls can fail ---

  // A pending creation's charges are refused exactly by a limit above zero that it exceeds
  // together with what is charged to the namespace, and by a bucket that is not Active; its
  // later database steps all succeed, and a rollback gives everything back.
  lemma PendingNeverFails(lim: Limits, s: Sys, p: OpId)
    requires Reachable(lim, s) && p in s.ops && s.ops[p].Create? && !s.ops[p].activated
    ensures var op, m := s.ops[p], StepOp(lim, s.w, p, s.ops[p]);
            && (op.pc == AcctNs ==> (
                  && m.1.Some? && m.1.value.Create? && op.h.ns in m.0.stats
                  && m.1.value.pc in {UndoNs, AcctBucket}
                  && (m.1.value.pc == UndoNs
                      <==> op.h.ns in lim && lim[op.h.ns] > 0
                           && Bytes(OfNs(s.w.nsLed, op.h.ns)) + op.size > lim[op.h.ns])))
            && (op.pc == AcctBucket ==> (
                  && m.1.Some? && m.1.value.Create?
                  && (m.1.value.pc == UndoNs <==> !(op.h.id in s.w.buckets && s.w.buckets[op.h.id].state == Active))))
            && (op.pc == Activate ==> m.1.value.activated && m.1.value.pc == Commit)
            && (op.pc == UndoBucket ==> m.1.value.pc == UndoNs && op.id !in m.0.bktLed)
            && (op.pc == UndoNs ==> UnchargeNs(s.w, op).Some? && op.id !in m.0.nsLed)
            && (op.pc == Remove ==> m.1.None? && op.id in s.w.objects && op.id !in m.0.objects)
  {
    ReachableInv(lim, s);
    ReadyOp(lim, s, p);
    var op := s.ops[p];
    assert SpotOk(s.w, op.id);
    if op.pc == AcctNs { NsCounter(lim, s.w, op.h.ns); }
    if op.pc == Activate { ActivateGood(lim, s.w, p, op); }
    if op.pc == UndoBucket { UndoBucketGood(lim, s.w, p, op); }
    if op.pc == UndoNs { UndoNsLocal(s.w, p, op); }
  }

  // A namespace without a stats record has nothing charged.
  lemma NsCounter(lim: Limits, w: World, n: NsId)
    requires WorldOk(lim, w)
    ensures Bytes(OfNs(w.nsLed, n)) == if n in w.stats then w.stats[n].cntBytes else 0
  {
    assert NsOk(lim, w, n);
    if n !in w.stats {
      forall x | x in w.nsLed ensures w.nsLed[x].ns != n { assert SpotOk(w, x); }
      assert OfNs(w.nsLed, n) == map[];
    }
  }

  // DropObject's last two steps never fail: the namespace is uncharged, and the record goes.
  lemma DropNeverFails(lim: Limits, s: Sys, p: OpId)
    requires Reachable(lim, s) && p in s.ops && s.ops[p].Drop?
    ensures var op, m := s.ops[p], StepOp(lim, s.w, p, s.ops[p]);
            && (op.dpc == UnacctNs ==> m.1 == Some(op.(dpc := Erase)) && op.id !in m.0.nsLed)
            && (op.dpc == Erase ==> op.id !in m.0.objects)
            && (op.dpc == Deactivate ==>
                  (m.1.Some? && m.1.value.Drop? && m.1.value.id == op.id && m.1.value.dpc == UnacctBucket
                   <==> op.id in s.w.objects && s.w.objects[op.id].state == Active))
  {
    ReachableInv(lim, s);
    ReadyOp(lim, s, p);
    assert SpotOk(s.w, s.ops[p].id);
  }

  // commitObj fails only when the new object has already been deleted and its bucket with
  // it; the rollback that follows changes no counter.
  lemma LateFailureIsHarmless(lim: Limits, s: Sys, p: OpId)
    requires Reachable(lim, s) && p in s.ops && s.ops[p].Create? && s.ops[p].activated
    ensures var op, m := s.ops[p], StepOp(lim, s.w, p, s.ops[p]);
            && (op.pc == Commit && m.1.value.Create? ==>
                  op.id !in s.w.bktLed && (op.id in s.w.objects ==> s.w.objects[op.id].state == Inactive))
            && (op.pc == UndoBucket || op.pc == Remove ==>
                  m.0.stats == s.w.stats && m.0.buckets == s.w.buckets && op.id !in s.w.bktLed)
  {
    ReachableInv(lim, s);
    ReadyOp(lim, s, p);
    var op := s.ops[p];
    assert SpotOk(s.w, op.id);
    if op.pc == UndoBucket { UndoBucketGood(lim, s.w, p, op); }
  }

  // --- stranded objects ---

  // A step leaves an object behind exactly when it unaccounts with the handle of another
  // bucket record than the object's own.
  lemma StrandsExactly(lim: Limits, s: Sys, st: Step)
    requires Reachable(lim, s) && Enabled(s, st)
    ensures Apply(lim, s, st).w.stranded == s.w.stranded + (if Strands(s, st) then {s.ops[st.p].id} else {})
    // the handle is then one of a bucket deleted since, whose name was taken again
    ensures Strands(s, st) ==> s.ops[st.p].h.id !in s.w.buckets
  {
    ReachableInv(lim, s);
    if st.Go? && s.ops[st.p].Drop? {
      DropStrands(lim, s, st.p);
    } else if st.Go? {
      OtherOpStrandsNone(lim, s.w, st.p, s.ops[st.p]);
    } else {
      BeginStrandsNone(lim, s, st);
    }
  }

  lemma ChargingStrandsNone(lim: Limits, w: World, op: Op)
    requires op.Create?
    ensures StepAcctNs(lim, w, op).0.stranded == w.stranded
    ensures StepAcctBucket(w, op).0.stranded == w.stranded
    ensures StepActivate(w, op).0.stranded == w.stranded
    ensures StepCommit(w, op).0.stranded == w.stranded
  {
  }

  lemma UndoingStrandsNone(w: World, op: Op)
    requires op.Create?
    ensures StepUndoBucket(w, op).0.stranded == w.stranded
    ensures StepUndoNs(w, op).0.stranded == w.stranded
    ensures StepRemove(w, op).0.stranded == w.stranded
  {
  }

  lemma CreateStrandsNone(lim: Limits, w: World, p: OpId, op: Op)
    requires op.Create?
    ensures StepOp(lim, w, p, op).0.stranded == w.stranded
  {
    ChargingStrandsNone(lim, w, op);
    UndoingStrandsNone(w, op);
  }

  lemma OtherOpStrandsNone(lim: Limits, w: World, p: OpId, op: Op)
    requires !op.Gc? && !op.Drop?
    ensures StepOp(lim, w, p, op).0.stranded == w.stranded
  {
    if op.Create? {
      CreateStrandsNone(lim, w, p, op);
    }
  }

  lemma BeginStrandsNone(lim: Limits, s: Sys, st: Step)
    requires Enabled(s, st) && !st.Go?
    ensures Effect(lim, s, st).0.stranded == s.w.stranded
  {
  }

  predicate Strands(s: Sys, st: Step) {
    st.Go? && st.p in s.ops && var op := s.ops[st.p];
    op.Drop? && op.dpc == UnacctBucket && op.id in s.w.objects && s.w.objects[op.id].bucket != op.h.id
  }

  lemma DropStrands(lim: Limits, s: Sys, p: OpId)
    requires Inv(lim, s) && p in s.ops && s.ops[p].Drop?
    ensures StepOp(lim, s.w, p, s.ops[p]).0.stranded == s.w.stranded + (if Strands(s, Go(p)) then {s.ops[p].id} else {})
    ensures Strands(s, Go(p)) ==> s.ops[p].h.id !in s.w.buckets
  {
    ReadyOp(lim, s, p);
    var op := s.ops[p];
    if op.dpc == UnacctBucket {
      UnacctBucketGood(lim, s.w, p, op);
      assert SpotOk(s.w, op.id) && BucketOk(s.w, op.h.id) && BucketOk(s.w, s.w.objects[op.id].bucket);
      assert CookieOk(s.w, op.h.id, s.w.objects[op.id].bucket) && Mentions(op, op.id);
    }
  }
}
