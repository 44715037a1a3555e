// What every interleaving of the store's operations keeps, stated one object, one
// bucket, one namespace and one operation at a time.
module S3Inv {
  import opened Common
  import opened Ledger
  import opened S3Db
  import opened S3Store

  // A charged object sits in its bucket, and that bucket is Active.
  ghost predicate Housed(w: World, x: ObjId, c: Charge) {
    && c.bucket in w.buckets && w.buckets[c.bucket].state == Active && w.buckets[c.bucket].ns == c.ns
    && x in w.objects && w.objects[x].bucket == c.bucket && w.objects[x].size == c.size
  }

  ghost predicate RecordOk(w: World, x: ObjId, o: Object) {
    && o.bucket in w.known && o.ocookie.bcookie == w.known[o.bucket].bcookie
    && (o.state == Active ==>
         x in w.bktLed && x !in w.owner && (o.bucket, o.rover) in w.grants
         && w.grants[(o.bucket, o.rover)] == x)
    && (o.state == NoneState ==> x in w.owner)
    && (o.state == Inactive ==> x in w.owner || x in w.bktLed)
  }

  // The ledgers, the record and the owner of one object agree.
  ghost predicate SpotOk(w: World, x: ObjId) {
    && (x in w.bktLed ==> x in w.admLed && w.admLed[x] == w.bktLed[x] && Housed(w, x, w.bktLed[x]))
    && (x in w.admLed ==> x in w.nsLed && w.nsLed[x] == w.admLed[x])
    && (x in w.nsLed ==> w.nsLed[x].ns in w.stats)
    && (x in w.nsLed && x !in w.bktLed ==> x in w.owner)
    && (x in w.objects ==> RecordOk(w, x, w.objects[x]))
    && (x in w.stranded <==> x in w.objects && w.objects[x].state == Inactive && x !in w.owner)
  }

  // A bucket's counters are the number and the total size of the objects charged to it.
  ghost predicate BucketOk(w: World, b: BucketId) {
    && (b in w.known ==> w.known[b].id == b)
    && (b in w.buckets ==>
          && b in w.known && w.known[b] == Handle(b, w.buckets[b].bcookie, w.buckets[b].ns)
          && w.buckets[b].rover >= 0
          && w.buckets[b].cntObjects == |OfBucket(w.bktLed, b)|
          && w.buckets[b].cntBytes == Bytes(OfBucket(w.bktLed, b)))
  }

  ghost predicate CookieOk(w: World, b: BucketId, c: BucketId) {
    b in w.buckets && c in w.buckets && w.buckets[b].bcookie == w.buckets[c].bcookie ==> b == c
  }

  // The rovers given out in a bucket are 1, 2, ..., up to its current one, each once.
  ghost predicate GrantOk(w: World, b: BucketId, r: int) {
    && ((b, r) in w.grants ==> b in w.known)
    && (b in w.buckets ==> ((b, r) in w.grants <==> 1 <= r <= w.buckets[b].rover))
  }

  ghost predicate NsOk(lim: Limits, w: World, n: NsId) {
    && (n in w.stats ==>
          w.stats[n].cntObjects == |OfNs(w.nsLed, n)| && w.stats[n].cntBytes == Bytes(OfNs(w.nsLed, n)))
    && (n in lim && lim[n] != 0 ==> Bytes(OfNs(w.admLed, n)) <= lim[n])
  }

  ghost predicate WorldOk(lim: Limits, w: World) {
    && (forall x {:trigger SpotOk(w, x)} :: SpotOk(w, x))
    && (forall b {:trigger BucketOk(w, b)} :: BucketOk(w, b))
    && (forall b, c {:trigger CookieOk(w, b, c)} :: CookieOk(w, b, c))
    && (forall b, r {:trigger GrantOk(w, b, r)} :: GrantOk(w, b, r))
    && (forall n {:trigger NsOk(lim, w, n)} :: NsOk(lim, w, n))
  }

  predicate Owns(op: Op, x: ObjId) {
    || (op.Create? && !op.activated && op.id == x)
    || (op.Drop? && op.dpc != Deactivate && op.id == x)
  }

  // Between the charge of its bucket and commitObj or the uncharge that gives it back.
  predicate InWindow(op: Op) {
    op.Create? && (op.pc == Data || op.pc == Activate || op.pc == Commit || (op.pc == UndoBucket && !op.activated))
  }

  // A creation that has not handed its object over.
  ghost predicate PendingOk(w: World, p: OpId, op: Op)
    requires op.Create?
  {
    && op.id in w.owner && w.owner[op.id] == p
    && op.id in w.objects && w.objects[op.id].bucket == op.h.id && w.objects[op.id].size == op.size
    && w.objects[op.id].state == NoneState && w.objects[op.id].ocookie == OCookie(op.h.bcookie, op.key)
    && op.pc != Commit
    && (op.id in w.nsLed <==> op.pc != AcctNs && op.pc != Remove)
    && (op.id in w.bktLed <==> InWindow(op))
    && (op.id in w.nsLed ==> w.nsLed[op.id] == ChargeOf(op))
    && (op.pc == AcctBucket ==> op.id in w.admLed)
    && (InWindow(op) ==> (op.h.id, op.rover) in w.grants && w.grants[(op.h.id, op.rover)] == op.id)
  }

  // A creation whose object is already visible, and so may be deleted by others.
  ghost predicate LateOk(w: World, op: Op)
    requires op.Create?
  {
    && (op.pc == Commit || op.pc == UndoBucket || op.pc == Remove)
    && (op.id in w.bktLed ==> w.bktLed[op.id].bucket == op.h.id)
    && (op.id in w.objects ==> w.objects[op.id].state != NoneState)
    && (op.h.id in w.buckets ==> w.buckets[op.h.id].state != NoneState)
    && (op.pc != Commit && op.h.id in w.buckets ==> w.buckets[op.h.id].state == Inactive)
    && (op.h.id, op.rover) in w.grants && w.grants[(op.h.id, op.rover)] == op.id
  }

  ghost predicate DropOk(w: World, p: OpId, op: Op)
    requires op.Drop?
  {
    && (forall x :: Mentions(op, x) && x in w.objects ==> w.objects[x].ocookie.bcookie == op.h.bcookie)
    && (op.dpc != Deactivate ==>
          && op.id in w.owner && w.owner[op.id] == p
          && (op.id in w.objects ==> w.objects[op.id].state == Inactive))
    && (op.dpc == UnacctBucket ==>
          op.id in w.objects && w.objects[op.id].state == Inactive && op.id in w.bktLed
              && w.bktLed[op.id].size == op.size)
    && (op.dpc == UnacctNs ==> op.id !in w.bktLed && op.id in w.nsLed && w.nsLed[op.id] == ChargeOf(op))
    && (op.dpc == Erase ==> op.id !in w.nsLed)
  }

  ghost predicate OpOk(w: World, p: OpId, op: Op) {
    && Known(w, op.h)
    && (op.Create? && !op.activated ==> PendingOk(w, p, op))
    && (op.Create? && op.activated ==> LateOk(w, op))
    && (op.Drop? ==> DropOk(w, p, op))
    && (op.EraseBucket? && op.h.id in w.buckets ==> w.buckets[op.h.id].state == Inactive)
  }

  predicate Creates(op: Op, x: ObjId) { op.Create? && op.id == x }

  ghost predicate OwnerOk(s: Sys, x: ObjId) {
    x in s.w.owner ==> s.w.owner[x] in s.ops && Owns(s.ops[s.w.owner[x]], x)
  }

  ghost predicate OpAt(s: Sys, p: OpId) { p in s.ops ==> OpOk(s.w, p, s.ops[p]) }

  ghost predicate IdsAt(s: Sys, p: OpId, q: OpId) {
    p in s.ops && q in s.ops && p != q && s.ops[p].Create? ==> !Creates(s.ops[q], s.ops[p].id)
  }

  ghost function Window(ops: map<OpId, Op>, b: BucketId): set<OpId> {
    set p | p in ops && InWindow(ops[p]) && ops[p].h.id == b
  }

  // A bucket's ref counts the creations in their window.
  ghost predicate RefAt(s: Sys, b: BucketId) {
    b in s.w.buckets && s.w.buckets[b].state != Inactive ==> s.w.buckets[b].ref == |Window(s.ops, b)|
  }

  ghost predicate Inv(lim: Limits, s: Sys) {
    && WorldOk(lim, s.w)
    && (forall x {:trigger OwnerOk(s, x)} :: OwnerOk(s, x))
    && (forall p {:trigger OpAt(s, p)} :: OpAt(s, p))
    && (forall p, q {:trigger IdsAt(s, p, q)} :: IdsAt(s, p, q))
    && (forall b {:trigger RefAt(s, b)} :: RefAt(s, b))
  }

  // --- What a step of operation p leaves alone ---

  // An object that another operation is responsible for.
  ghost predicate SameFor(w: World, v: World, x: ObjId) {
    && (x in v.objects ==> x in w.objects && v.objects[x] == w.objects[x])
    && (x in w.objects && (w.objects[x].state == NoneState || x in w.bktLed) ==> x in v.objects)
    && (x in v.nsLed <==> x in w.nsLed) && (x in w.nsLed ==> v.nsLed[x] == w.nsLed[x])
    && (x in v.admLed <==> x in w.admLed) && (x in w.admLed ==> v.admLed[x] == w.admLed[x])
    && (x in v.bktLed <==> x in w.bktLed) && (x in w.bktLed ==> v.bktLed[x] == w.bktLed[x])
  }

  // pre and post are the operation before and after; born is an id it inserts.
  ghost predicate LeavesObject(w: World, v: World, p: OpId, pre: Option<Op>, post: Option<Op>, born: Option<ObjId>,
                               x: ObjId) {
    && (x in v.bktLed ==> (x in w.bktLed && v.bktLed[x] == w.bktLed[x]) || (pre.Some? && Creates(pre.value, x)))
    && (x in v.objects && born != Some(x) ==>
          && x in w.objects && v.objects[x].ocookie == w.objects[x].ocookie
          && (v.objects[x].state == NoneState ==> w.objects[x].state == NoneState))
    && (x in w.owner && w.owner[x] != p ==> x in v.owner && v.owner[x] == w.owner[x] && SameFor(w, v, x))
    && (x in v.owner && v.owner[x] != p ==> x in w.owner && w.owner[x] == v.owner[x])
    && (x in v.owner && v.owner[x] == p ==> post.Some? && Owns(post.value, x))
  }

  // A bucket keeps its name and never goes back to an earlier state.
  ghost predicate LeavesBucket(w: World, v: World, b: BucketId) {
    && (b in w.known ==> b in v.known && v.known[b] == w.known[b])
    && (b in v.buckets && b in w.known ==>
          && b in w.buckets
          && (v.buckets[b].state == NoneState ==> w.buckets[b].state == NoneState)
          && (w.buckets[b].state == Inactive ==> v.buckets[b].state == Inactive))
  }

  ghost predicate LeavesGrant(w: World, v: World, b: BucketId, r: int) {
    (b, r) in w.grants ==> (b, r) in v.grants && v.grants[(b, r)] == w.grants[(b, r)]
  }

  ghost predicate Leaves(w: World, v: World, p: OpId, pre: Option<Op>, post: Option<Op>, born: Option<ObjId>) {
    && (forall x {:trigger LeavesObject(w, v, p, pre, post, born, x)} :: LeavesObject(w, v, p, pre, post, born, x))
    && (forall b {:trigger LeavesBucket(w, v, b)} :: LeavesBucket(w, v, b))
    && (forall b, r {:trigger LeavesGrant(w, v, b, r)} :: LeavesGrant(w, v, b, r))
  }

  function Weight(op: Option<Op>, b: BucketId): int {
    if op.Some? && InWindow(op.value) && op.value.h.id == b then 1 else 0
  }

  // ref moves with the operation's entry to and exit from the window.
  ghost predicate RefMoves(w: World, v: World, pre: Option<Op>, post: Option<Op>, b: BucketId) {
    b in v.buckets && v.buckets[b].state != Inactive ==>
      if b in w.buckets
      then w.buckets[b].state != Inactive && v.buckets[b].ref - w.buckets[b].ref == Weight(post, b) - Weight(pre, b)
      else b !in w.known && v.buckets[b].ref == 0 && Weight(post, b) == 0
  }

  lemma OtherStable(w: World, v: World, p: OpId, q: OpId, op: Op, pre: Option<Op>, post: Option<Op>,
                    born: Option<ObjId>)
    requires Leaves(w, v, p, pre, post, born) && q != p && OpOk(w, q, op)
    requires pre.Some? && op.Create? ==> !Creates(pre.value, op.id)
    requires born.Some? ==> !Mentions(op, born.value)
    ensures OpOk(v, q, op)
  {
    assert LeavesBucket(w, v, op.h.id);
    if op.Create? {
      assert LeavesObject(w, v, p, pre, post, born, op.id);
      assert LeavesGrant(w, v, op.h.id, op.rover);
    } else if op.Drop? {
      assert LeavesObject(w, v, p, pre, post, born, op.id);
      forall x | Mentions(op, x) && x in v.objects ensures v.objects[x].ocookie.bcookie == op.h.bcookie {
        assert LeavesObject(w, v, p, pre, post, born, x);
      }
    }
  }

  // One operation's part of a window.
  lemma WindowWithout(ops: map<OpId, Op>, p: OpId, op: Option<Op>, b: BucketId)
    requires op == if p in ops then Some(ops[p]) else None
    ensures |Window(ops, b)| == |Window(ops - {p}, b)| + Weight(op, b)
  {
    var others := Window(ops - {p}, b);
    assert p !in others;
    if Weight(op, b) == 1 {
      assert Window(ops, b) == others + {p};
    } else {
      assert Window(ops, b) == others;
    }
  }

  lemma WindowMoves(ops: map<OpId, Op>, p: OpId, pre: Option<Op>, post: Option<Op>, b: BucketId)
    requires pre == if p in ops then Some(ops[p]) else None
    ensures |Window(Put(ops, p, post), b)| - |Window(ops, b)| == Weight(post, b) - Weight(pre, b)
  {
    WindowWithout(ops, p, pre, b);
    WindowWithout(Put(ops, p, post), p, post, b);
    assert Put(ops, p, post) - {p} == ops - {p};
  }

  lemma RefStays(s: Sys, p: OpId, v: World, pre: Option<Op>, post: Option<Op>, b: BucketId)
    requires RefAt(s, b) && RefMoves(s.w, v, pre, post, b)
    requires pre == if p in s.ops then Some(s.ops[p]) else None
    requires forall q :: q in s.ops ==> s.ops[q].h.id in s.w.known
    ensures RefAt(Sys(v, Put(s.ops, p, post)), b)
  {
    WindowMoves(s.ops, p, pre, post, b);
    if b !in s.w.known {
      assert Window(s.ops, b) == {};
    }
  }

  // One operation moves: everything that must hold of the whole system follows.
  lemma Moves(lim: Limits, s: Sys, p: OpId, v: World, pre: Option<Op>, post: Option<Op>, born: Option<ObjId>)
    requires Inv(lim, s) && WorldOk(lim, v)
    requires pre == if p in s.ops then Some(s.ops[p]) else None
    requires Leaves(s.w, v, p, pre, post, born)
    requires forall b {:trigger RefMoves(s.w, v, pre, post, b)} :: RefMoves(s.w, v, pre, post, b)
    requires born.Some? ==> forall q :: q in s.ops ==> !Mentions(s.ops[q], born.value)
    requires post.Some? ==> OpOk(v, p, post.value)
    requires post.Some? && post.value.Create? ==>
               (pre.Some? && Creates(pre.value, post.value.id)) || born == Some(post.value.id)
    ensures Inv(lim, Sys(v, Put(s.ops, p, post)))
  {
    var t := Sys(v, Put(s.ops, p, post));
    forall q ensures OpAt(t, q) {
      if q in s.ops && q != p {
        assert OpAt(s, q) && IdsAt(s, q, p);
        OtherStable(s.w, v, p, q, s.ops[q], pre, post, born);
      }
    }
    forall q, r ensures IdsAt(t, q, r) {
      assert IdsAt(s, q, r);
    }
    forall x ensures OwnerOk(t, x) {
      assert OwnerOk(s, x) && LeavesObject(s.w, v, p, pre, post, born, x);
    }
    forall q | q in s.ops ensures s.ops[q].h.id in s.w.known {
      assert OpAt(s, q);
    }
    forall b ensures RefAt(t, b) {
      assert RefAt(s, b) && RefMoves(s.w, v, pre, post, b);
      RefStays(s, p, v, pre, post, b);
    }
  }
}
