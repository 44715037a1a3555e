// Finite-map ledgers: which objects are charged to a bucket or a namespace,
// how many there are and how many bytes they hold.
module Ledger {

  type BucketId = nat
  type NsId = nat
  type ObjId = nat

  // One charge: the object's bucket, that bucket's namespace, the object's size.
  datatype Charge = Charge(bucket: BucketId, ns: NsId, size: nat)

  type Charges = map<ObjId, Charge>

  ghost function OfBucket(l: Charges, b: BucketId): Charges {
    map x | x in l && l[x].bucket == b :: l[x]
  }

  ghost function OfNs(l: Charges, n: NsId): Charges {
    map x | x in l && l[x].ns == n :: l[x]
  }

  ghost function Bytes(l: Charges): nat
    decreases |l|
  {
    if l == map[] then 0
    else
      var x :| x in l;
      assert |(l - {x}).Keys| == |l.Keys - {x}| by { assert (l - {x}).Keys == l.Keys - {x}; }
      l[x].size + Bytes(l - {x})
  }

  // Removing any one charge takes exactly its size away.
  lemma {:induction false} BytesRemove(l: Charges, x: ObjId)
    requires x in l
    ensures Bytes(l) == l[x].size + Bytes(l - {x})
    ensures |l - {x}| == |l| - 1
    decreases |l|
  {
    CountRemove(l, x);
    var y :| y in l && Bytes(l) == l[y].size + Bytes(l - {y});
    if y != x {
      CountRemove(l, y);
      BytesRemove(l - {y}, x);
      BytesRemove(l - {x}, y);
      assert l - {y} - {x} == l - {x} - {y};
    }
  }

  lemma CountRemove(l: Charges, x: ObjId)
    requires x in l
    ensures |l - {x}| == |l| - 1
  {
    assert (l - {x}).Keys == l.Keys - {x};
    assert |(l - {x}).Keys| == |l.Keys - {x}|;
  }

  // Adding a charge for an object that has none adds exactly its size.
  lemma BytesAdd(l: Charges, x: ObjId, c: Charge)
    requires x !in l
    ensures Bytes(l[x := c]) == Bytes(l) + c.size
    ensures |l[x := c]| == |l| + 1
  {
    var m := l[x := c];
    assert m - {x} == l;
    BytesRemove(m, x);
  }

  ghost predicate Within(small: Charges, big: Charges) {
    forall x :: x in small ==> x in big && small[x] == big[x]
  }

  // Fewer charges, fewer bytes.
  lemma {:induction false} BytesMonotone(small: Charges, big: Charges)
    requires Within(small, big)
    ensures Bytes(small) <= Bytes(big)
    ensures |small| <= |big|
    decreases |small|
  {
    if small == map[] {
    } else {
      var x :| x in small;
      BytesRemove(small, x);
      BytesRemove(big, x);
      BytesMonotone(small - {x}, big - {x});
    }
  }

  ghost function Beyond(small: Charges, big: Charges): Charges {
    map x | x in big && x !in small :: big[x]
  }

  // A ledger and the part of it that another ledger lacks add up.
  lemma {:induction false} BytesSplit(small: Charges, big: Charges)
    requires Within(small, big)
    ensures Bytes(big) == Bytes(small) + Bytes(Beyond(small, big))
    ensures |big| == |small| + |Beyond(small, big)|
    decreases |small|
  {
    if small == map[] {
      assert Beyond(small, big) == big;
    } else {
      var x :| x in small;
      BytesRemove(small, x);
      BytesRemove(big, x);
      BytesSplit(small - {x}, big - {x});
      assert Beyond(small - {x}, big - {x}) == Beyond(small, big);
    }
  }

  // What one charge more or less does to the per-bucket and per-namespace totals.
  lemma AddToBucket(l: Charges, x: ObjId, c: Charge, b: BucketId)
    requires x !in l
    ensures |OfBucket(l[x := c], b)| == |OfBucket(l, b)| + (if c.bucket == b then 1 else 0)
    ensures Bytes(OfBucket(l[x := c], b)) == Bytes(OfBucket(l, b)) + (if c.bucket == b then c.size else 0)
  {
    if c.bucket == b {
      assert OfBucket(l[x := c], b) == OfBucket(l, b)[x := c];
      BytesAdd(OfBucket(l, b), x, c);
    } else {
      assert OfBucket(l[x := c], b) == OfBucket(l, b);
    }
  }

  lemma TakeFromBucket(l: Charges, x: ObjId, b: BucketId)
    requires x in l
    ensures |OfBucket(l - {x}, b)| == |OfBucket(l, b)| - (if l[x].bucket == b then 1 else 0)
    ensures Bytes(OfBucket(l - {x}, b)) == Bytes(OfBucket(l, b)) - (if l[x].bucket == b then l[x].size else 0)
  {
    if l[x].bucket == b {
      assert OfBucket(l - {x}, b) == OfBucket(l, b) - {x};
      BytesRemove(OfBucket(l, b), x);
    } else {
      assert OfBucket(l - {x}, b) == OfBucket(l, b);
    }
  }

  lemma AddToNs(l: Charges, x: ObjId, c: Charge, n: NsId)
    requires x !in l
    ensures |OfNs(l[x := c], n)| == |OfNs(l, n)| + (if c.ns == n then 1 else 0)
    ensures Bytes(OfNs(l[x := c], n)) == Bytes(OfNs(l, n)) + (if c.ns == n then c.size else 0)
  {
    if c.ns == n {
      assert OfNs(l[x := c], n) == OfNs(l, n)[x := c];
      BytesAdd(OfNs(l, n), x, c);
    } else {
      assert OfNs(l[x := c], n) == OfNs(l, n);
    }
  }

  lemma TakeFromNs(l: Charges, x: ObjId, n: NsId)
    requires x in l
    ensures |OfNs(l - {x}, n)| == |OfNs(l, n)| - (if l[x].ns == n then 1 else 0)
    ensures Bytes(OfNs(l - {x}, n)) == Bytes(OfNs(l, n)) - (if l[x].ns == n then l[x].size else 0)
  {
    if l[x].ns == n {
      assert OfNs(l - {x}, n) == OfNs(l, n) - {x};
      BytesRemove(OfNs(l, n), x);
    } else {
      assert OfNs(l - {x}, n) == OfNs(l, n);
    }
  }
}
