// Each atomic step of an operation keeps the store's invariant.
module S3Steps {
  import opened Common
  import opened Ledger
  import opened S3Db
  import opened S3Store
  import opened S3Inv

  // The step's own operation may move: its world is sound and it owns what it should.
  ghost predicate Ready(lim: Limits, w: World, p: OpId, op: Op) {
    WorldOk(lim, w) && OpOk(w, p, op) && forall x :: x in w.owner && w.owner[x] == p ==> Owns(op, x)
  }

  ghost predicate Good(lim: Limits, w: World, m: Moved, p: OpId, pre: Option<Op>, born: Option<ObjId>) {
    && WorldOk(lim, m.0) && Leaves(w, m.0, p, pre, m.1, born)
    && (forall b {:trigger RefMoves(w, m.0, pre, m.1, b)} :: RefMoves(w, m.0, pre, m.1, b))
    && (m.1.Some? ==> OpOk(m.0, p, m.1.value))
  }

  // --- the other objects ---

  ghost predicate Same(w: World, v: World, y: ObjId) {
    && (y in v.objects <==> y in w.objects) && (y in w.objects ==> v.objects[y] == w.objects[y])
    && (y in v.owner <==> y in w.owner) && (y in w.owner ==> v.owner[y] == w.owner[y])
    && (y in v.nsLed <==> y in w.nsLed) && (y in w.nsLed ==> v.nsLed[y] == w.nsLed[y])
    && (y in v.admLed <==> y in w.admLed) && (y in w.admLed ==> v.admLed[y] == w.admLed[y])
    && (y in v.bktLed <==> y in w.bktLed) && (y in w.bktLed ==> v.bktLed[y] == w.bktLed[y])
    && (y in v.stranded <==> y in w.stranded)
  }

  // The two worlds differ in no object but x.
  ghost predicate AgreeBut(w: World, v: World, x: ObjId) {
    && (forall y {:trigger Same(w, v, y)} :: y != x ==> Same(w, v, y))
    && forall n :: n in w.stats ==> n in v.stats
  }

  ghost predicate SameHouse(w: World, v: World, b: BucketId) {
    b in w.buckets && w.buckets[b].state == Active ==>
      b in v.buckets && v.buckets[b].state == Active && v.buckets[b].ns == w.buckets[b].ns
  }

  // Every charged object keeps its Active bucket.
  ghost predicate HousesStand(w: World, v: World) {
    forall y :: y in w.bktLed ==> SameHouse(w, v, w.bktLed[y].bucket)
  }

  lemma SpotStays(w: World, v: World, y: ObjId)
    requires SpotOk(w, y) && Same(w, v, y) && forall n :: n in w.stats ==> n in v.stats
    requires y in w.bktLed ==> SameHouse(w, v, w.bktLed[y].bucket)
    requires y in w.objects ==>
             LeavesBucket(w, v, w.objects[y].bucket)
             && LeavesGrant(w, v, w.objects[y].bucket, w.objects[y].rover)
    ensures SpotOk(v, y)
  {
  }

  // Only x moves, and it moves soundly.
  lemma OneObject(w: World, v: World, p: OpId, pre: Option<Op>, post: Option<Op>, born: Option<ObjId>, x: ObjId)
    requires forall y {:trigger SpotOk(w, y)} :: SpotOk(w, y)
    requires forall b {:trigger LeavesBucket(w, v, b)} :: LeavesBucket(w, v, b)
    requires HousesStand(w, v)
    requires forall b, r {:trigger LeavesGrant(w, v, b, r)} :: LeavesGrant(w, v, b, r)
    requires forall y :: y in w.owner && w.owner[y] == p ==> y == x
    requires AgreeBut(w, v, x) && SpotOk(v, x) && LeavesObject(w, v, p, pre, post, born, x)
    ensures forall y {:trigger SpotOk(v, y)} :: SpotOk(v, y)
    ensures forall y {:trigger LeavesObject(w, v, p, pre, post, born, y)} :: LeavesObject(w, v, p, pre, post, born, y)
  {
    forall y ensures SpotOk(v, y) && LeavesObject(w, v, p, pre, post, born, y) {
      if y != x {
        assert SpotOk(w, y) && Same(w, v, y);
        if y in w.objects {
          assert LeavesBucket(w, v, w.objects[y].bucket) && LeavesGrant(w, v, w.objects[y].bucket, w.objects[y].rover);
        }
        SpotStays(w, v, y);
      }
    }
  }

  // --- bucket records and grants ---

  ghost predicate BucketSide(w: World, v: World, pre: Option<Op>, post: Option<Op>) {
    && (forall b {:trigger BucketOk(v, b)} :: BucketOk(v, b))
    && (forall b, c {:trigger CookieOk(v, b, c)} :: CookieOk(v, b, c))
    && (forall b, r {:trigger GrantOk(v, b, r)} :: GrantOk(v, b, r))
    && (forall b {:trigger LeavesBucket(w, v, b)} :: LeavesBucket(w, v, b))
    && HousesStand(w, v)
    && (forall b, r {:trigger LeavesGrant(w, v, b, r)} :: LeavesGrant(w, v, b, r))
    && (forall b {:trigger RefMoves(w, v, pre, post, b)} :: RefMoves(w, v, pre, post, b))
  }

  ghost predicate BucketWorld(w: World) {
    && (forall b {:trigger BucketOk(w, b)} :: BucketOk(w, b))
    && (forall b, c {:trigger CookieOk(w, b, c)} :: CookieOk(w, b, c))
    && (forall b, r {:trigger GrantOk(w, b, r)} :: GrantOk(w, b, r))
  }

  lemma CalmBuckets(w: World, v: World, pre: Option<Op>, post: Option<Op>)
    requires BucketWorld(w)
    requires v.buckets == w.buckets && v.known == w.known && v.grants == w.grants && v.bktLed == w.bktLed
    requires forall b {:trigger Weight(post, b)} ::
             b in w.buckets && w.buckets[b].state != Inactive
             ==> Weight(post, b) == Weight(pre, b)
    ensures BucketSide(w, v, pre, post)
  {
    forall b ensures BucketOk(v, b) && LeavesBucket(w, v, b) { assert BucketOk(w, b); }
    forall b ensures RefMoves(w, v, pre, post, b) { assert Weight(post, b) == Weight(post, b); }
    forall b, c ensures CookieOk(v, b, c) { assert CookieOk(w, b, c); }
    forall b, r ensures GrantOk(v, b, r) && LeavesGrant(w, v, b, r) { assert GrantOk(w, b, r); }
  }

  ghost predicate TotalsMove(l: Charges, m: Charges, b: BucketId, d: Inc) {
    && |OfBucket(m, b)| == |OfBucket(l, b)| + d.objects && Bytes(OfBucket(m, b)) == Bytes(OfBucket(l, b)) + d.bytes
    && forall c {:trigger OfBucket(m, c)} :: c != b ==> OfBucket(m, c) == OfBucket(l, c)
  }

  // One $inc on an Active bucket b by an operation that works on b; x takes the new rover.
  lemma BumpedBucket(w: World, v: World, b: BucketId, d: Inc, x: ObjId, pre: Op, post: Option<Op>)
    requires BucketWorld(w)
    requires b in w.buckets && w.buckets[b].state == Active && v.buckets == w.buckets[b := Bump(w.buckets[b], d)]
             && v.known == w.known
    requires d.rover == 0 || d.rover == 1
    requires v.grants == if d.rover == 1 then w.grants[(b, w.buckets[b].rover + 1) := x] else w.grants
    requires TotalsMove(w.bktLed, v.bktLed, b, d)
    requires pre.h.id == b && (post.Some? ==> post.value.h.id == b)
    requires d.ref == Weight(post, b) - Weight(Some(pre), b)
    ensures BucketSide(w, v, Some(pre), post)
  {
    var next := w.buckets[b].rover + 1;
    assert BucketOk(w, b) && GrantOk(w, b, next);
    forall c ensures BucketOk(v, c) && LeavesBucket(w, v, c) && RefMoves(w, v, Some(pre), post, c) {
      assert BucketOk(w, c);
    }
    forall c, e ensures CookieOk(v, c, e) { assert CookieOk(w, c, e); }
    forall c, r ensures GrantOk(v, c, r) && LeavesGrant(w, v, c, r) {
      assert GrantOk(w, c, r);
      assert (c, r) == (b, next) <==> c == b && r == next;
    }
  }

  lemma ChargedBucket(l: Charges, x: ObjId, c: Charge, d: Inc)
    requires x !in l && d.objects == 1 && d.bytes == c.size
    ensures TotalsMove(l, l[x := c], c.bucket, d)
  {
    AddToBucket(l, x, c, c.bucket);
    forall b | b != c.bucket ensures OfBucket(l[x := c], b) == OfBucket(l, b) { }
  }

  lemma UnchargedBucket(l: Charges, x: ObjId, d: Inc)
    requires x in l && d.objects == -1 && d.bytes == -(l[x].size as int)
    ensures TotalsMove(l, l - {x}, l[x].bucket, d)
  {
    TakeFromBucket(l, x, l[x].bucket);
    forall b | b != l[x].bucket ensures OfBucket(l - {x}, b) == OfBucket(l, b) { }
  }

  // --- namespace totals and the quota ---

  lemma CalmNs(lim: Limits, w: World, v: World)
    requires forall n {:trigger NsOk(lim, w, n)} :: NsOk(lim, w, n)
    requires v.stats == w.stats && v.nsLed == w.nsLed && v.admLed == w.admLed
    ensures forall n {:trigger NsOk(lim, v, n)} :: NsOk(lim, v, n)
  {
    forall n ensures NsOk(lim, v, n) { assert NsOk(lim, w, n); }
  }

  // Admitting a charge: the namespace total after it is within the limit, and
  // whatever was admitted before is part of that total.
  lemma ChargedNs(lim: Limits, w: World, v: World, x: ObjId, c: Charge)
    requires forall n {:trigger NsOk(lim, w, n)} :: NsOk(lim, w, n)
    requires forall y {:trigger SpotOk(w, y)} :: SpotOk(w, y)
    requires x !in w.nsLed && v.nsLed == w.nsLed[x := c] && v.stats == StatsAcct(w.stats, c.ns, 1, c.size)
    requires v.admLed == if Limited(lim, c.ns, v.stats[c.ns].cntBytes) then w.admLed else w.admLed[x := c]
    ensures forall n {:trigger NsOk(lim, v, n)} :: NsOk(lim, v, n)
  {
    assert SpotOk(w, x);
    forall n ensures NsOk(lim, v, n) {
      assert NsOk(lim, w, n);
      ChargedNsAt(lim, w, v, x, c, n);
    }
  }

  lemma ChargedNsAt(lim: Limits, w: World, v: World, x: ObjId, c: Charge, n: NsId)
    requires NsOk(lim, w, n)
    requires forall y {:trigger SpotOk(w, y)} :: SpotOk(w, y)
    requires x !in w.nsLed && x !in w.admLed && v.nsLed == w.nsLed[x := c]
             && v.stats == StatsAcct(w.stats, c.ns, 1, c.size)
    requires v.admLed == if Limited(lim, c.ns, v.stats[c.ns].cntBytes) then w.admLed else w.admLed[x := c]
    ensures NsOk(lim, v, n)
  {
    NsTotals(w, v, x, c, n);
    if n == c.ns && !Limited(lim, c.ns, v.stats[c.ns].cntBytes) {
      AdmittedFits(w, x, c, n);
    } else {
      assert OfNs(v.admLed, n) == OfNs(w.admLed, n);
    }
  }

  lemma AdmittedFits(w: World, x: ObjId, c: Charge, n: NsId)
    requires forall y {:trigger SpotOk(w, y)} :: SpotOk(w, y)
    ensures Bytes(OfNs(w.admLed[x := c], n)) <= Bytes(OfNs(w.nsLed[x := c], n))
  {
    var small, big := OfNs(w.admLed[x := c], n), OfNs(w.nsLed[x := c], n);
    forall y | y in small ensures y in big && big[y] == small[y] { assert SpotOk(w, y); }
    BytesMonotone(small, big);
  }

  lemma NsTotals(w: World, v: World, x: ObjId, c: Charge, n: NsId)
    requires n in w.stats ==>
             w.stats[n].cntObjects == |OfNs(w.nsLed, n)|
             && w.stats[n].cntBytes == Bytes(OfNs(w.nsLed, n))
    requires forall y {:trigger SpotOk(w, y)} :: SpotOk(w, y)
    requires x !in w.nsLed && v.nsLed == w.nsLed[x := c] && v.stats == StatsAcct(w.stats, c.ns, 1, c.size)
    ensures n in v.stats ==>
            v.stats[n].cntObjects == |OfNs(v.nsLed, n)|
            && v.stats[n].cntBytes == Bytes(OfNs(v.nsLed, n))
  {
    AddToNs(w.nsLed, x, c, n);
    if n !in w.stats {
      forall y | y in w.nsLed ensures w.nsLed[y].ns != n { assert SpotOk(w, y); }
      assert OfNs(w.nsLed, n) == map[];
    }
  }

  lemma UnchargedNs(lim: Limits, w: World, v: World, x: ObjId)
    requires forall n {:trigger NsOk(lim, w, n)} :: NsOk(lim, w, n)
    requires x in w.nsLed && w.nsLed[x].ns in w.stats
    requires v.nsLed == w.nsLed - {x} && v.admLed == w.admLed - {x}
    requires v.stats == StatsAcct(w.stats, w.nsLed[x].ns, -1, -(w.nsLed[x].size as int))
    ensures forall n {:trigger NsOk(lim, v, n)} :: NsOk(lim, v, n)
  {
    forall n ensures NsOk(lim, v, n) {
      assert NsOk(lim, w, n);
      TakeFromNs(w.nsLed, x, n);
      BytesMonotone(OfNs(v.admLed, n), OfNs(w.admLed, n));
    }
  }

  // --- steps that change no record ---

  lemma IdleGood(lim: Limits, w: World, p: OpId, pre: Option<Op>, post: Option<Op>, born: Option<ObjId>)
    requires WorldOk(lim, w)
    requires forall x :: x in w.owner && w.owner[x] == p ==> post.Some? && Owns(post.value, x)
    requires forall b {:trigger Weight(post, b)} ::
             b in w.buckets && w.buckets[b].state != Inactive
             ==> Weight(post, b) == Weight(pre, b)
    requires post.Some? ==> OpOk(w, p, post.value)
    ensures Good(lim, w, (w, post), p, pre, born)
  {
    CalmBuckets(w, w, pre, post);
  }

  // --- creations ---

  lemma InsertGood(lim: Limits, w: World, p: OpId, h: Handle, id: ObjId, key: string, size: nat)
    requires WorldOk(lim, w) && Known(w, h)
    requires id !in w.owner
    requires forall x :: x in w.owner ==> w.owner[x] != p
    ensures Good(lim, w, StepInsert(w, p, h, id, key, size), p, None, Some(id))
  {
    if id in w.objects {
      IdleGood(lim, w, p, None, None, Some(id));
    } else {
      InsertDone(lim, w, p, h, id, key, size);
    }
  }

  lemma InsertDone(lim: Limits, w: World, p: OpId, h: Handle, id: ObjId, key: string, size: nat)
    requires WorldOk(lim, w) && Known(w, h)
    requires id !in w.owner && id !in w.objects
    requires forall x :: x in w.owner ==> w.owner[x] != p
    ensures Good(lim, w, StepInsert(w, p, h, id, key, size), p, None, Some(id))
  {
    var m := StepInsert(w, p, h, id, key, size);
    CalmBuckets(w, m.0, None, m.1);
    CalmNs(lim, w, m.0);
    assert SpotOk(w, id);
    OneObject(w, m.0, p, None, m.1, Some(id), id);
  }

  // What a step does to its own object and its own operation.
  ghost predicate Local(w: World, m: Moved, p: OpId, op: Op)
    requires op.Create? || op.Drop?
  {
    && SpotOk(m.0, op.id) && LeavesObject(w, m.0, p, Some(op), m.1, None, op.id)
    && (m.1.Some? ==> OpOk(m.0, p, m.1.value))
  }

  lemma AcctNsLocal(lim: Limits, w: World, p: OpId, op: Op)
    requires op.Create? && op.pc == AcctNs && !op.activated
    requires OpOk(w, p, op) && SpotOk(w, op.id)
    ensures AgreeBut(w, StepAcctNs(lim, w, op).0, op.id)
    ensures Local(w, StepAcctNs(lim, w, op), p, op)
  {
  }

  lemma AcctNsSides(lim: Limits, w: World, p: OpId, op: Op)
    requires Ready(lim, w, p, op) && op.Create? && op.pc == AcctNs && !op.activated
    ensures var m := StepAcctNs(lim, w, op);
            BucketSide(w, m.0, Some(op), m.1) && forall n {:trigger NsOk(lim, m.0, n)} :: NsOk(lim, m.0, n)
  {
    var m := StepAcctNs(lim, w, op);
    CalmBuckets(w, m.0, Some(op), m.1);
    ChargedNs(lim, w, m.0, op.id, ChargeOf(op));
  }

  lemma AcctNsGood(lim: Limits, w: World, p: OpId, op: Op)
    requires Ready(lim, w, p, op) && op.Create? && op.pc == AcctNs && !op.activated
    ensures Good(lim, w, StepAcctNs(lim, w, op), p, Some(op), None)
  {
    var m := StepAcctNs(lim, w, op);
    AcctNsSides(lim, w, p, op);
    assert SpotOk(w, op.id);
    AcctNsLocal(lim, w, p, op);
    OneObject(w, m.0, p, Some(op), m.1, None, op.id);
  }

  lemma AcctBucketGood(lim: Limits, w: World, p: OpId, op: Op)
    requires Ready(lim, w, p, op) && op.Create? && op.pc == AcctBucket && !op.activated
    ensures Good(lim, w, StepAcctBucket(w, op), p, Some(op), None)
  {
    var m := StepAcctBucket(w, op);
    if m.1.value.pc == Data {
      AcctBucketDone(lim, w, p, op);
    } else {
      IdleGood(lim, w, p, Some(op), m.1, None);
    }
  }

  lemma AcctBucketLocal(w: World, p: OpId, op: Op)
    requires op.Create? && op.pc == AcctBucket && !op.activated
    requires OpOk(w, p, op) && SpotOk(w, op.id) && BucketOk(w, op.h.id)
    requires BucketAcct(w.buckets, op.h.id, Inc(1, op.size, 1, 1)).Some?
    requires GrantOk(w, op.h.id, w.buckets[op.h.id].rover + 1)
    ensures Local(w, StepAcctBucket(w, op), p, op)
  {
  }

  lemma AcctBucketDone(lim: Limits, w: World, p: OpId, op: Op)
    requires Ready(lim, w, p, op) && op.Create? && op.pc == AcctBucket && !op.activated
    requires BucketAcct(w.buckets, op.h.id, Inc(1, op.size, 1, 1)).Some?
    ensures Good(lim, w, StepAcctBucket(w, op), p, Some(op), None)
  {
    var m := StepAcctBucket(w, op);
    var d := Inc(1, op.size, 1, 1);
    assert SpotOk(w, op.id) && BucketOk(w, op.h.id) && GrantOk(w, op.h.id, w.buckets[op.h.id].rover + 1);
    AcctBucketLocal(w, p, op);
    ChargedBucket(w.bktLed, op.id, ChargeOf(op), d);
    BumpedBucket(w, m.0, op.h.id, d, op.id, op, m.1);
    CalmNs(lim, w, m.0);
    OneObject(w, m.0, p, Some(op), m.1, None, op.id);
  }

  lemma ActivateGood(lim: Limits, w: World, p: OpId, op: Op)
    requires Ready(lim, w, p, op) && op.Create? && op.pc == Activate && !op.activated
    ensures Good(lim, w, StepActivate(w, op), p, Some(op), None)
    ensures StepActivate(w, op).1 == Some(op.(pc := Commit, activated := true))
  {
    var m := StepActivate(w, op);
    CalmBuckets(w, m.0, Some(op), m.1);
    CalmNs(lim, w, m.0);
    assert SpotOk(w, op.id);
    OneObject(w, m.0, p, Some(op), m.1, None, op.id);
  }

  lemma CommitGood(lim: Limits, w: World, p: OpId, op: Op)
    requires Ready(lim, w, p, op) && op.Create? && op.pc == Commit && op.activated
    ensures Good(lim, w, StepCommit(w, op), p, Some(op), None)
  {
    var m := StepCommit(w, op);
    if m.1.value.Gc? {
      CommitDone(lim, w, p, op);
    } else {
      IdleGood(lim, w, p, Some(op), m.1, None);
    }
  }

  lemma CommitDone(lim: Limits, w: World, p: OpId, op: Op)
    requires Ready(lim, w, p, op) && op.Create? && op.pc == Commit && op.activated
    requires BucketAcct(w.buckets, op.h.id, Inc(0, 0, -1, 0)).Some?
    ensures Good(lim, w, StepCommit(w, op), p, Some(op), None)
  {
    var m := StepCommit(w, op);
    BumpedBucket(w, m.0, op.h.id, Inc(0, 0, -1, 0), op.id, op, m.1);
    CalmNs(lim, w, m.0);
    assert SpotOk(w, op.id);
    OneObject(w, m.0, p, Some(op), m.1, None, op.id);
  }

  // Giving a charge back after a refusal or a failed transfer of the data.
  lemma UndoBucketGood(lim: Limits, w: World, p: OpId, op: Op)
    requires Ready(lim, w, p, op) && op.Create? && op.pc == UndoBucket
    ensures Good(lim, w, StepUndoBucket(w, op), p, Some(op), None)
    ensures StepUndoBucket(w, op).1.value.pc == UndoNs <==> !op.activated
  {
    assert SpotOk(w, op.id);
    if op.activated {
      IdleGood(lim, w, p, Some(op), Some(op.(pc := Remove)), None);
    } else {
      UndoBucketDone(lim, w, p, op);
    }
  }

  lemma UndoBucketLocal(w: World, p: OpId, op: Op)
    requires op.Create? && op.pc == UndoBucket && !op.activated
    requires OpOk(w, p, op) && SpotOk(w, op.id)
    ensures StepUndoBucket(w, op).1 == Some(op.(pc := UndoNs))
    ensures AgreeBut(w, StepUndoBucket(w, op).0, op.id)
    ensures Local(w, StepUndoBucket(w, op), p, op)
  {
  }

  lemma UndoBucketDone(lim: Limits, w: World, p: OpId, op: Op)
    requires Ready(lim, w, p, op) && op.Create? && op.pc == UndoBucket && !op.activated
    ensures StepUndoBucket(w, op).1 == Some(op.(pc := UndoNs))
    ensures Good(lim, w, StepUndoBucket(w, op), p, Some(op), None)
  {
    var m := StepUndoBucket(w, op);
    var d := Inc(-1, -(op.size as int), -1, 0);
    assert SpotOk(w, op.id);
    UndoBucketLocal(w, p, op);
    UnchargedBucket(w.bktLed, op.id, d);
    BumpedBucket(w, m.0, op.h.id, d, op.id, op, m.1);
    CalmNs(lim, w, m.0);
    OneObject(w, m.0, p, Some(op), m.1, None, op.id);
  }

  lemma UndoNsLocal(w: World, p: OpId, op: Op)
    requires op.Create? && op.pc == UndoNs && !op.activated
    requires OpOk(w, p, op) && SpotOk(w, op.id)
    ensures UnchargeNs(w, op).Some?
    ensures AgreeBut(w, StepUndoNs(w, op).0, op.id)
    ensures Local(w, StepUndoNs(w, op), p, op)
  {
  }

  lemma UndoNsGood(lim: Limits, w: World, p: OpId, op: Op)
    requires Ready(lim, w, p, op) && op.Create? && op.pc == UndoNs
    ensures Good(lim, w, StepUndoNs(w, op), p, Some(op), None)
  {
    var m := StepUndoNs(w, op);
    assert SpotOk(w, op.id);
    UndoNsLocal(w, p, op);
    CalmBuckets(w, m.0, Some(op), m.1);
    UnchargedNs(lim, w, m.0, op.id);
    OneObject(w, m.0, p, Some(op), m.1, None, op.id);
  }

  lemma RemoveLocal(w: World, p: OpId, op: Op)
    requires op.Create? && op.pc == Remove
    requires OpOk(w, p, op) && SpotOk(w, op.id)
    requires op.activated ==> forall y :: y in w.owner ==> w.owner[y] != p
    ensures AgreeBut(w, StepRemove(w, op).0, op.id)
    ensures Local(w, StepRemove(w, op), p, op)
  {
  }

  lemma RemoveGood(lim: Limits, w: World, p: OpId, op: Op)
    requires Ready(lim, w, p, op) && op.Create? && op.pc == Remove
    ensures Good(lim, w, StepRemove(w, op), p, Some(op), None)
  {
    var m := StepRemove(w, op);
    assert SpotOk(w, op.id);
    RemoveLocal(w, p, op);
    CalmBuckets(w, m.0, Some(op), m.1);
    CalmNs(lim, w, m.0);
    OneObject(w, m.0, p, Some(op), m.1, None, op.id);
  }

  // --- deletions ---

  lemma NextDropOk(w: World, p: OpId, op: Op)
    requires op.Drop? && OpOk(w, p, op)
    ensures NextDrop(op).Some? ==> OpOk(w, p, NextDrop(op).value)
  {
    if op.rest != [] {
      var next := NextDrop(op).value;
      forall x | Mentions(next, x) && x in w.objects ensures w.objects[x].ocookie.bcookie == op.h.bcookie {
        assert Mentions(op, x);
      }
    }
  }

  lemma DeactivateLocal(w: World, p: OpId, op: Op)
    requires op.Drop? && op.dpc == Deactivate
    requires OpOk(w, p, op) && SpotOk(w, op.id) && SetObject(w.objects, op.id, Inactive, None).Some?
    ensures AgreeBut(w, StepDeactivate(w, p, op).0, op.id)
    ensures Local(w, StepDeactivate(w, p, op), p, op)
  {
  }

  lemma DeactivateGood(lim: Limits, w: World, p: OpId, op: Op)
    requires Ready(lim, w, p, op) && op.Drop? && op.dpc == Deactivate
    ensures Good(lim, w, StepDeactivate(w, p, op), p, Some(op), None)
  {
    var m := StepDeactivate(w, p, op);
    if SetObject(w.objects, op.id, Inactive, None).None? {
      NextDropOk(w, p, op);
      IdleGood(lim, w, p, Some(op), m.1, None);
    } else {
      assert SpotOk(w, op.id);
      DeactivateLocal(w, p, op);
      CalmBuckets(w, m.0, Some(op), m.1);
      CalmNs(lim, w, m.0);
      OneObject(w, m.0, p, Some(op), m.1, None, op.id);
    }
  }

  // Unaccounting succeeds exactly when the operation's handle names the object's own bucket.
  lemma UnacctBucketWorks(w: World, p: OpId, op: Op)
    requires op.Drop? && op.dpc == UnacctBucket && OpOk(w, p, op) && SpotOk(w, op.id)
    requires BucketOk(w, op.h.id) && BucketOk(w, w.objects[op.id].bucket)
             && CookieOk(w, op.h.id, w.objects[op.id].bucket)
    ensures BucketAcct(w.buckets, op.h.id, Inc(-1, -(op.size as int), 0, 0)).Some?
            <==> w.objects[op.id].bucket == op.h.id
  {
    assert Mentions(op, op.id);
  }

  lemma UnacctBucketLocal(w: World, p: OpId, op: Op)
    requires op.Drop? && op.dpc == UnacctBucket
    requires OpOk(w, p, op) && SpotOk(w, op.id) && w.objects[op.id].bucket == op.h.id
    ensures StepUnacctBucket(w, op).1 == Some(op.(dpc := UnacctNs))
    ensures AgreeBut(w, StepUnacctBucket(w, op).0, op.id)
    ensures BucketOk(w, op.h.id) ==> Local(w, StepUnacctBucket(w, op), p, op)
  {
  }

  lemma StrandLocal(w: World, p: OpId, op: Op)
    requires op.Drop? && op.dpc == UnacctBucket
    requires OpOk(w, p, op) && SpotOk(w, op.id)
    requires BucketAcct(w.buckets, op.h.id, Inc(-1, -(op.size as int), 0, 0)).None?
    ensures AgreeBut(w, StepUnacctBucket(w, op).0, op.id)
    ensures Local(w, StepUnacctBucket(w, op), p, op)
  {
    var m := StepUnacctBucket(w, op);
    if m.1.Some? {
      forall x | Mentions(m.1.value, x) && x in w.objects ensures w.objects[x].ocookie.bcookie == op.h.bcookie {
        assert Mentions(op, x);
      }
    }
  }

  lemma UnacctBucketGood(lim: Limits, w: World, p: OpId, op: Op)
    requires Ready(lim, w, p, op) && op.Drop? && op.dpc == UnacctBucket
    ensures Good(lim, w, StepUnacctBucket(w, op), p, Some(op), None)
    ensures op.id in w.objects
    ensures StepUnacctBucket(w, op).0.stranded
            == w.stranded + (if w.objects[op.id].bucket == op.h.id then {} else {op.id})
  {
    assert SpotOk(w, op.id) && BucketOk(w, op.h.id) && BucketOk(w, w.objects[op.id].bucket);
    assert CookieOk(w, op.h.id, w.objects[op.id].bucket);
    UnacctBucketWorks(w, p, op);
    if w.objects[op.id].bucket == op.h.id {
      UnacctBucketDone(lim, w, p, op);
    } else {
      Stranded(lim, w, p, op);
    }
  }

  lemma UnacctBucketDone(lim: Limits, w: World, p: OpId, op: Op)
    requires Ready(lim, w, p, op) && op.Drop? && op.dpc == UnacctBucket && w.objects[op.id].bucket == op.h.id
    ensures Good(lim, w, StepUnacctBucket(w, op), p, Some(op), None)
  {
    var m := StepUnacctBucket(w, op);
    var d := Inc(-1, -(op.size as int), 0, 0);
    assert SpotOk(w, op.id) && BucketOk(w, op.h.id);
    UnacctBucketLocal(w, p, op);
    UnchargedBucket(w.bktLed, op.id, d);
    BumpedBucket(w, m.0, op.h.id, d, op.id, op, m.1);
    CalmNs(lim, w, m.0);
    OneObject(w, m.0, p, Some(op), m.1, None, op.id);
  }

  lemma Stranded(lim: Limits, w: World, p: OpId, op: Op)
    requires Ready(lim, w, p, op) && op.Drop? && op.dpc == UnacctBucket
    requires BucketAcct(w.buckets, op.h.id, Inc(-1, -(op.size as int), 0, 0)).None?
    ensures Good(lim, w, StepUnacctBucket(w, op), p, Some(op), None)
  {
    var m := StepUnacctBucket(w, op);
    assert SpotOk(w, op.id);
    StrandLocal(w, p, op);
    CalmBuckets(w, m.0, Some(op), m.1);
    CalmNs(lim, w, m.0);
    OneObject(w, m.0, p, Some(op), m.1, None, op.id);
  }

  lemma UnacctNsLocal(w: World, p: OpId, op: Op)
    requires op.Drop? && op.dpc == UnacctNs
    requires OpOk(w, p, op) && SpotOk(w, op.id)
    ensures UnchargeNs(w, op).Some?
    ensures AgreeBut(w, StepUnacctNs(w, op).0, op.id)
    ensures Local(w, StepUnacctNs(w, op), p, op)
  {
  }

  lemma UnacctNsGood(lim: Limits, w: World, p: OpId, op: Op)
    requires Ready(lim, w, p, op) && op.Drop? && op.dpc == UnacctNs
    ensures Good(lim, w, StepUnacctNs(w, op), p, Some(op), None)
  {
    var m := StepUnacctNs(w, op);
    assert SpotOk(w, op.id);
    UnacctNsLocal(w, p, op);
    CalmBuckets(w, m.0, Some(op), m.1);
    UnchargedNs(lim, w, m.0, op.id);
    OneObject(w, m.0, p, Some(op), m.1, None, op.id);
  }

  lemma EraseLocal(w: World, p: OpId, op: Op)
    requires op.Drop? && op.dpc == Erase
    requires OpOk(w, p, op) && SpotOk(w, op.id)
    ensures AgreeBut(w, StepErase(w, op).0, op.id)
    ensures Local(w, StepErase(w, op), p, op)
  {
    var m := StepErase(w, op);
    if m.1.Some? {
      forall x | Mentions(m.1.value, x) && x in w.objects ensures w.objects[x].ocookie.bcookie == op.h.bcookie {
        assert Mentions(op, x);
      }
    }
  }

  lemma EraseFound(w: World, p: OpId, op: Op)
    requires op.Drop? && op.dpc == Erase && OpOk(w, p, op)
    ensures StepErase(w, op) == (w.(objects := w.objects - {op.id}, owner := w.owner - {op.id}), NextDrop(op))
  {
    if op.id !in w.objects {
      assert w.objects - {op.id} == w.objects;
    }
  }

  lemma EraseGood(lim: Limits, w: World, p: OpId, op: Op)
    requires Ready(lim, w, p, op) && op.Drop? && op.dpc == Erase
    ensures Good(lim, w, StepErase(w, op), p, Some(op), None)
  {
    var m := StepErase(w, op);
    assert SpotOk(w, op.id);
    EraseLocal(w, p, op);
    EraseFound(w, p, op);
    CalmBuckets(w, m.0, Some(op), m.1);
    CalmNs(lim, w, m.0);
    OneObject(w, m.0, p, Some(op), m.1, None, op.id);
  }

  // --- buckets ---

  lemma OnlyBuckets(lim: Limits, w: World, v: World, p: OpId, pre: Option<Op>, post: Option<Op>)
    requires WorldOk(lim, w) && v == w.(buckets := v.buckets, known := v.known)
    requires BucketSide(w, v, pre, post)
    requires forall x :: x in w.owner ==> w.owner[x] != p
    requires post.Some? ==> OpOk(v, p, post.value)
    ensures Good(lim, w, (v, post), p, pre, None)
  {
    CalmNs(lim, w, v);
    forall y ensures SpotOk(v, y) && LeavesObject(w, v, p, pre, post, None, y) {
      assert SpotOk(w, y);
      if y in w.objects {
        assert LeavesBucket(w, v, w.objects[y].bucket) && LeavesGrant(w, v, w.objects[y].bucket, w.objects[y].rover);
      }
      SpotStays(w, v, y);
    }
  }

  // A record inserted, moved to another state, or removed: its charges must be none
  // unless it stays Active.
  lemma OneBucket(w: World, v: World, b: BucketId, pre: Option<Op>, post: Option<Op>)
    requires BucketWorld(w) && v.bktLed == w.bktLed && v.grants == w.grants
    requires forall c :: c != b
               ==> (c in v.buckets <==> c in w.buckets) && (c in w.buckets ==> v.buckets[c] == w.buckets[c])
    requires forall c :: c != b ==> (c in v.known <==> c in w.known) && (c in w.known ==> v.known[c] == w.known[c])
    requires LeavesBucket(w, v, b) && BucketOk(v, b)
    requires forall c {:trigger CookieOk(v, b, c)} :: CookieOk(v, b, c) && CookieOk(v, c, b)
    requires forall r {:trigger GrantOk(v, b, r)} :: GrantOk(v, b, r)
    requires forall y :: y in w.bktLed ==> w.bktLed[y].bucket != b
    requires b in v.buckets && v.buckets[b].state != Inactive ==> RefMoves(w, v, pre, post, b)
    requires (pre.Some? ==> !InWindow(pre.value)) && (post.Some? ==> !InWindow(post.value))
    ensures BucketSide(w, v, pre, post)
  {
    forall c ensures BucketOk(v, c) && LeavesBucket(w, v, c) { assert BucketOk(w, c); }
    forall c ensures RefMoves(w, v, pre, post, c) { assert Weight(post, c) == Weight(post, c); }
    forall c, e ensures CookieOk(v, c, e) { assert CookieOk(w, c, e) && CookieOk(v, b, e) && CookieOk(v, b, c); }
    forall c, r ensures GrantOk(v, c, r) && LeavesGrant(w, v, c, r) { assert GrantOk(w, c, r) && GrantOk(v, b, r); }
  }

  lemma NoCharges(w: World, b: BucketId)
    requires |OfBucket(w.bktLed, b)| == 0
    ensures forall y :: y in w.bktLed ==> w.bktLed[y].bucket != b
  {
    assert OfBucket(w.bktLed, b) == map[];
    forall y | y in w.bktLed ensures w.bktLed[y].bucket != b {
      assert y !in OfBucket(w.bktLed, b);
    }
  }

  // No charge is in a bucket that is not Active.
  lemma Uncharged(lim: Limits, w: World, b: BucketId)
    requires WorldOk(lim, w) && (b in w.buckets ==> w.buckets[b].state != Active)
    ensures forall y :: y in w.bktLed ==> w.bktLed[y].bucket != b
    ensures OfBucket(w.bktLed, b) == map[]
  {
    forall y | y in w.bktLed ensures w.bktLed[y].bucket != b { assert SpotOk(w, y); }
  }

  lemma InsertBucketGood(lim: Limits, w: World, p: OpId, h: Handle)
    requires WorldOk(lim, w) && h.id !in w.known
    requires forall x :: x in w.owner ==> w.owner[x] != p
    ensures Good(lim, w, StepInsertBucket(w, h), p, None, None)
  {
    var m := StepInsertBucket(w, h);
    if m.1.None? {
      IdleGood(lim, w, p, None, None, None);
    } else {
      Uncharged(lim, w, h.id);
      forall r ensures GrantOk(m.0, h.id, r) { assert GrantOk(w, h.id, r); }
      forall c ensures CookieOk(m.0, h.id, c) && CookieOk(m.0, c, h.id) { }
      OneBucket(w, m.0, h.id, None, m.1);
      OnlyBuckets(lim, w, m.0, p, None, m.1);
    }
  }

  function StepState(w: World, op: Op): Moved
    requires op.NewBucket? || op.MarkBucket?
  {
    if op.NewBucket? then StepBucketState(w, op.h.id, Active, None)
    else StepBucketState(w, op.h.id, Inactive, Some(EraseBucket(op.h)))
  }

  // A bucket that changes its state has no charges.
  lemma StateSide(lim: Limits, w: World, op: Op)
    requires WorldOk(lim, w) && (op.NewBucket? || op.MarkBucket?) && Known(w, op.h) && StepState(w, op).0 != w
    ensures BucketSide(w, StepState(w, op).0, Some(op), StepState(w, op).1)
  {
    var m, b := StepState(w, op), op.h.id;
    assert BucketOk(w, b);
    if op.NewBucket? { Uncharged(lim, w, b); } else { NoCharges(w, b); }
    forall r ensures GrantOk(m.0, b, r) { assert GrantOk(w, b, r); }
    forall c ensures CookieOk(m.0, b, c) && CookieOk(m.0, c, b) { assert CookieOk(w, b, c); }
    OneBucket(w, m.0, b, Some(op), m.1);
  }

  lemma BucketStateGood(lim: Limits, w: World, p: OpId, op: Op)
    requires Ready(lim, w, p, op) && (op.NewBucket? || op.MarkBucket?)
    ensures Good(lim, w, StepState(w, op), p, Some(op), None)
  {
    var m := StepState(w, op);
    if m.0 == w {
      IdleGood(lim, w, p, Some(op), m.1, None);
    } else {
      StateSide(lim, w, op);
      OnlyBuckets(lim, w, m.0, p, Some(op), m.1);
    }
  }

  lemma EraseBucketGood(lim: Limits, w: World, p: OpId, op: Op)
    requires Ready(lim, w, p, op) && op.EraseBucket?
    ensures Good(lim, w, StepEraseBucket(w, op.h.id), p, Some(op), None)
  {
    var m := StepEraseBucket(w, op.h.id);
    var b := op.h.id;
    if b in w.buckets {
      Uncharged(lim, w, b);
      forall r ensures GrantOk(m.0, b, r) { assert GrantOk(w, b, r); }
      forall c ensures CookieOk(m.0, b, c) && CookieOk(m.0, c, b) { assert CookieOk(w, b, c); }
      assert BucketOk(w, b);
      OneBucket(w, m.0, b, Some(op), None);
      OnlyBuckets(lim, w, m.0, p, Some(op), None);
    } else {
      IdleGood(lim, w, p, Some(op), None, None);
    }
  }
}
