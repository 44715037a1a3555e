// Parts are read in the order of their numbers. When that fixes what is read.
module UploadOrder {
  import opened Common
  import opened S3Db
  import opened Upload
  import opened UploadSafety

  // Every order the query may return yields the same bytes.
  ghost predicate OneBody(ps: Parts) {
    forall a, b :: Listing(ps, a) && Listing(ps, b) ==> Body(ps, a) == Body(ps, b)
  }

  predicate Commute(a: seq<bv8>, b: seq<bv8>) { a + b == b + a }

  // Parts of one number hold bytes that can be swapped.
  predicate Swappable(ps: Parts) {
    forall x, y :: x in ps && y in ps && ps[x].num == ps[y].num ==> Commute(ps[x].data, ps[y].data)
  }

  // --- splitting ---

  lemma {:induction false} BodySplits(ps: Parts, ids: seq<PartId>, i: nat)
    requires i <= |ids|
    ensures Body(ps, ids) == Body(ps, ids[..i]) + Body(ps, ids[i..])
  {
    if i == 0 {
      assert ids[0..] == ids && ids[..0] == [];
    } else {
      BodySplits(ps, ids[1..], i - 1);
      assert ids[..i][1..] == ids[1..][..i - 1] && ids[1..][i - 1..] == ids[i..];
    }
  }

  lemma {:induction false} BodyFrame(ps: Parts, x: PartId, ids: seq<PartId>)
    requires x !in ids
    ensures Body(ps - {x}, ids) == Body(ps, ids)
  {
    if ids != [] { BodyFrame(ps, x, ids[1..]); }
  }

  // Three pieces of a listing: before an element, the element, behind it.
  lemma BodyAround(ps: Parts, ids: seq<PartId>, j: nat)
    requires j < |ids| && ids[j] in ps && ps[ids[j]].state == Active
    ensures Body(ps, ids) == Body(ps, ids[..j]) + (ps[ids[j]].data + Body(ps, ids[j + 1..]))
  {
    BodySplits(ps, ids, j);
    assert ids[j..][0] == ids[j] && ids[j..][1..] == ids[j + 1..];
  }

  lemma BodyJoined(ps: Parts, a: seq<PartId>, b: seq<PartId>)
    ensures Body(ps, a + b) == Body(ps, a) + Body(ps, b)
  {
    BodySplits(ps, a + b, |a|);
    assert (a + b)[..|a|] == a && (a + b)[|a|..] == b;
  }

  // --- swappable parts: one body ---

  lemma CommuteConcat(d: seq<bv8>, a: seq<bv8>, b: seq<bv8>)
    requires Commute(d, a) && Commute(d, b)
    ensures Commute(d, a + b)
  {
    calc {
      d + (a + b);
      (d + a) + b;
      (a + d) + b;
      a + (d + b);
      a + (b + d);
      (a + b) + d;
    }
  }

  // What commutes with each part commutes with all of them read together.
  lemma {:induction false} CommuteBody(ps: Parts, ids: seq<PartId>, d: seq<bv8>)
    requires forall x :: x in ids && x in ps ==> Commute(d, ps[x].data)
    ensures Commute(d, Body(ps, ids))
  {
    if ids == [] {
      assert d + [] == [] + d;
    } else {
      CommuteBody(ps, ids[1..], d);
      assert ids[0] in ids;
      assert d + [] == [] + d;
      CommuteConcat(d, if ids[0] in ps && ps[ids[0]].state == Active then ps[ids[0]].data else [], Body(ps, ids[1..]));
    }
  }

  // Nothing in front of the first part of another listing has another number.
  lemma FrontHasOneNumber(ps: Parts, b: seq<PartId>, j: nat, x: PartId)
    requires Listing(ps, b) && j < |b| && b[j] == x && forall y :: y in ps ==> ps[x].num <= ps[y].num
    ensures forall y :: y in b[..j] ==> y in ps && ps[y].num == ps[x].num
  {
    forall i | 0 <= i < j ensures b[i] in ps && ps[b[i]].num == ps[x].num {
      assert b[i] in b && b[j] in b;
    }
  }

  lemma LeastFirst(ps: Parts, a: seq<PartId>)
    requires Listing(ps, a) && a != []
    ensures a[0] in ps && forall y :: y in ps ==> ps[a[0]].num <= ps[y].num
  {
    assert a[0] in a;
    forall y | y in ps ensures ps[a[0]].num <= ps[y].num {
      assert y in a;
      var i :| 0 <= i < |a| && a[i] == y;
    }
  }

  lemma EnumeratesWithout(ps: Parts, b: seq<PartId>, j: nat)
    requires Enumerates(ps, b) && j < |b|
    ensures Enumerates(ps - {b[j]}, b[..j] + b[j + 1..])
  {
    var c := b[..j] + b[j + 1..];
    forall x ensures x in c <==> x in ps - {b[j]} {
      if x in c {
        var i :| 0 <= i < |c| && c[i] == x;
        assert b[if i < j then i else i + 1] == x;
      }
      if x in ps && x != b[j] {
        assert x in b;
        var i :| 0 <= i < |b| && b[i] == x;
        assert c[if i < j then i else i - 1] == x;
      }
    }
  }

  lemma Without(ps: Parts, b: seq<PartId>, j: nat)
    requires Listing(ps, b) && j < |b|
    ensures Listing(ps - {b[j]}, b[..j] + b[j + 1..])
  {
    var c := b[..j] + b[j + 1..];
    EnumeratesWithout(ps, b, j);
    forall k, l | 0 <= k < l < |c| ensures c[k] in ps && c[l] in ps && ps[c[k]].num <= ps[c[l]].num {
      var k0, l0 := if k < j then k else k + 1, if l < j then l else l + 1;
      assert c[k] == b[k0] && c[l] == b[l0] && b[k0] in b && b[l0] in b;
    }
  }

  // A part of the least number can be read first.
  lemma ReadAtFirst(ps: Parts, b: seq<PartId>, j: nat)
    requires Listing(ps, b) && AllActive(ps) && Swappable(ps) && j < |b|
    requires b[j] in ps && forall y :: y in ps ==> ps[b[j]].num <= ps[y].num
    ensures Body(ps, b) == ps[b[j]].data + Body(ps - {b[j]}, b[..j] + b[j + 1..])
  {
    var x, d := b[j], ps[b[j]].data;
    FrontHasOneNumber(ps, b, j, x);
    CommuteBody(ps, b[..j], d);
    BodyAround(ps, b, j);
    BodyJoined(ps, b[..j], b[j + 1..]);
    EnumeratesWithout(ps, b, j);
    BodyFrame(ps, x, b[..j] + b[j + 1..]);
    Moved(Body(ps, b[..j]), d, Body(ps, b[j + 1..]));
  }

  lemma ReadFirst(ps: Parts, b: seq<PartId>, x: PartId) returns (c: seq<PartId>)
    requires Listing(ps, b) && AllActive(ps) && Swappable(ps)
    requires x in ps && forall y :: y in ps ==> ps[x].num <= ps[y].num
    ensures Listing(ps - {x}, c) && Body(ps, b) == ps[x].data + Body(ps - {x}, c)
    ensures |c| < |b|
  {
    assert x in b;
    var j :| 0 <= j < |b| && b[j] == x;
    ReadAtFirst(ps, b, j);
    Without(ps, b, j);
    c := b[..j] + b[j + 1..];
  }

  lemma Moved(p: seq<bv8>, d: seq<bv8>, s: seq<bv8>)
    requires Commute(d, p)
    ensures p + (d + s) == d + (p + s)
  {
    assert p + (d + s) == (p + d) + s;
    assert d + (p + s) == (d + p) + s;
  }

  lemma SameLength(ps: Parts, a: seq<PartId>, b: seq<PartId>)
    requires Enumerates(ps, a) && Enumerates(ps, b)
    ensures a == [] <==> b == []
  {
    if a != [] { assert a[0] in ps && a[0] in b; }
    if b != [] { assert b[0] in ps && b[0] in a; }
  }

  lemma SwappableWithout(ps: Parts, x: PartId)
    requires AllActive(ps) && Swappable(ps)
    ensures AllActive(ps - {x}) && Swappable(ps - {x})
  {
  }

  lemma {:induction false} SwappableGivesOneBody(ps: Parts, a: seq<PartId>, b: seq<PartId>)
    requires Listing(ps, a) && Listing(ps, b) && AllActive(ps) && Swappable(ps)
    ensures Body(ps, a) == Body(ps, b)
    decreases |a|
  {
    SameLength(ps, a, b);
    if a != [] {
      var x := a[0];
      LeastFirst(ps, a);
      var c := ReadFirst(ps, a, x);
      var d := ReadFirst(ps, b, x);
      SwappableWithout(ps, x);
      SwappableGivesOneBody(ps - {x}, c, d);
    }
  }

  // --- one body: swappable parts ---

  // k is a place for a part with this number.
  ghost predicate Fits(ps: Parts, a: seq<PartId>, k: nat, num: nat) {
    && k <= |a| && (forall y :: y in a ==> y in ps)
    && (forall i :: 0 <= i < k ==> ps[a[i]].num <= num)
    && (forall i :: k <= i < |a| ==> num <= ps[a[i]].num)
  }

  function Inserted(a: seq<PartId>, k: nat, x: PartId): (c: seq<PartId>)
    requires k <= |a|
    ensures |c| == |a| + 1 && c[k] == x
    ensures forall i :: 0 <= i < k ==> c[i] == a[i]
    ensures forall i :: k < i < |c| ==> c[i] == a[i - 1]
  {
    a[..k] + [x] + a[k..]
  }

  lemma EnumeratesInserted(ps: Parts, x: PartId, a: seq<PartId>, k: nat)
    requires x in ps && Enumerates(ps - {x}, a) && k <= |a|
    ensures Enumerates(ps, Inserted(a, k, x))
  {
    var c := Inserted(a, k, x);
    assert x !in a;
    assert a == a[..k] + a[k..];
    forall y ensures y in c <==> y in ps { assert y in c <==> y == x || y in a; }
    forall i, j | 0 <= i < j < |c| ensures c[i] != c[j] {
      if i == k { assert c[j] in a; } else if j == k { assert c[i] in a; }
    }
  }

  lemma PutAt(ps: Parts, x: PartId, a: seq<PartId>, k: nat)
    requires x in ps && Listing(ps - {x}, a) && Fits(ps, a, k, ps[x].num)
    ensures Listing(ps, Inserted(a, k, x))
  {
    var c := Inserted(a, k, x);
    EnumeratesInserted(ps, x, a, k);
    forall i, j | 0 <= i < j < |c| ensures ps[c[i]].num <= ps[c[j]].num {
      PairInOrder(ps, x, a, k, i, j);
    }
  }

  lemma PairInOrder(ps: Parts, x: PartId, a: seq<PartId>, k: nat, i: nat, j: nat)
    requires x in ps && Listing(ps - {x}, a) && Fits(ps, a, k, ps[x].num) && i < j <= |a|
    ensures var c := Inserted(a, k, x); c[i] in ps && c[j] in ps && ps[c[i]].num <= ps[c[j]].num
  {
    assert i < |a| ==> a[i] in a;
    assert j < |a| ==> a[j] in a;
    assert j > 0 ==> a[j - 1] in a;
  }

  lemma {:induction false} FindPlace(ps: Parts, a: seq<PartId>, num: nat) returns (k: nat)
    requires Listing(ps, a)
    ensures Fits(ps, a, k, num)
  {
    k := 0;
    while k < |a| && ps[a[k]].num < num
      invariant k <= |a| && forall i :: 0 <= i < k ==> ps[a[i]].num <= num
    {
      k := k + 1;
    }
  }

  lemma FitsMore(ps: Parts, x: PartId, a: seq<PartId>, k: nat, num: nat)
    requires x in ps && Fits(ps - {x}, a, k, num)
    ensures Fits(ps, a, k, num)
  {
  }

  lemma {:induction false} HasListing(ps: Parts) returns (a: seq<PartId>)
    ensures Listing(ps, a)
    decreases |ps|
  {
    if x :| x in ps {
      assert (ps - {x}).Keys == ps.Keys - {x};
      var b := HasListing(ps - {x});
      var k := FindPlace(ps - {x}, b, ps[x].num);
      FitsMore(ps, x, b, k, ps[x].num);
      PutAt(ps, x, b, k);
      a := Inserted(b, k, x);
    } else {
      a := [];
    }
  }

  // A part fits before and behind one of its own number.
  lemma FitsBoth(ps: Parts, y: PartId, a: seq<PartId>, k: nat)
    requires y in ps && Fits(ps, a, k, ps[y].num)
    ensures Fits(ps, Inserted(a, k, y), k, ps[y].num) && Fits(ps, Inserted(a, k, y), k + 1, ps[y].num)
  {
    var c := Inserted(a, k, y);
    forall z | z in c ensures z in ps {
      var i :| 0 <= i < |c| && c[i] == z;
      assert i != k ==> z in a;
    }
  }

  // Two listings that differ only in the order of two parts of one number.
  lemma BothOrders(ps: Parts, x: PartId, y: PartId) returns (p: seq<PartId>, s: seq<PartId>)
    requires x in ps && y in ps && x != y && ps[x].num == ps[y].num
    ensures Listing(ps, p + [x, y] + s) && Listing(ps, p + [y, x] + s)
  {
    var rest, num := ps - {x}, ps[x].num;
    var a := HasListing(rest - {y});
    var k := FindPlace(rest - {y}, a, num);
    FitsMore(rest, y, a, k, num);
    FitsMore(ps, x, a, k, num);
    PutAt(rest, y, a, k);
    FitsBoth(ps, y, a, k);
    var b := Inserted(a, k, y);
    PutAt(ps, x, b, k);
    PutAt(ps, x, b, k + 1);
    p, s := a[..k], a[k..];
    InsertedTwice(a, k, x, y);
  }

  lemma InsertedTwice(a: seq<PartId>, k: nat, x: PartId, y: PartId)
    requires k <= |a|
    ensures Inserted(Inserted(a, k, y), k, x) == a[..k] + [x, y] + a[k..]
    ensures Inserted(Inserted(a, k, y), k + 1, x) == a[..k] + [y, x] + a[k..]
  {
  }

  lemma BodyOfPair(ps: Parts, p: seq<PartId>, x: PartId, y: PartId, s: seq<PartId>)
    requires x in ps && y in ps && ps[x].state == ps[y].state == Active
    ensures Body(ps, p + [x, y] + s) == Body(ps, p) + (ps[x].data + ps[y].data) + Body(ps, s)
  {
    BodyJoined(ps, p + [x, y], s);
    BodyJoined(ps, p, [x, y]);
    BodyOne(ps, x);
    BodyOne(ps, y);
    BodyJoined(ps, [x], [y]);
    assert [x] + [y] == [x, y];
  }

  lemma BodyOne(ps: Parts, x: PartId)
    requires x in ps && ps[x].state == Active
    ensures Body(ps, [x]) == ps[x].data
  {
    assert [x][1..] == [] && ps[x].data + [] == ps[x].data;
  }

  lemma Cancel(p: seq<bv8>, u: seq<bv8>, v: seq<bv8>, s: seq<bv8>)
    requires p + u + s == p + v + s && |u| == |v|
    ensures u == v
  {
    assert u == (p + u + s)[|p|..|p| + |u|];
    assert v == (p + v + s)[|p|..|p| + |v|];
  }

  lemma OneBodyMakesSwappable(ps: Parts, x: PartId, y: PartId)
    requires AllActive(ps) && OneBody(ps) && x in ps && y in ps && ps[x].num == ps[y].num
    ensures Commute(ps[x].data, ps[y].data)
  {
    if x != y {
      var p, s := BothOrders(ps, x, y);
      BodyOfPair(ps, p, x, y, s);
      BodyOfPair(ps, p, y, x, s);
      Cancel(Body(ps, p), ps[x].data + ps[y].data, ps[y].data + ps[x].data, Body(ps, s));
    }
  }

  // Reads are determined exactly when the bytes of parts with one number can be swapped.
  lemma OneBodyExactly(ps: Parts)
    requires AllActive(ps)
    ensures OneBody(ps) <==> Swappable(ps)
  {
    if OneBody(ps) {
      forall x, y | x in ps && y in ps && ps[x].num == ps[y].num ensures Commute(ps[x].data, ps[y].data) {
        OneBodyMakesSwappable(ps, x, y);
      }
    }
    if Swappable(ps) {
      forall a, b | Listing(ps, a) && Listing(ps, b) ensures Body(ps, a) == Body(ps, b) {
        SwappableGivesOneBody(ps, a, b);
      }
    }
  }

  predicate DistinctNumbers(ps: Parts) {
    forall x, y :: x in ps && y in ps && x != y ==> ps[x].num != ps[y].num
  }

  // Distinct part numbers are enough.
  lemma DistinctNumbersSwap(ps: Parts)
    requires DistinctNumbers(ps)
    ensures Swappable(ps)
  {
  }

  // A number uploaded twice with different bytes: the object may read back two ways.
  lemma ReuploadReadsTwoWays()
    ensures var ps := map[0 := Part(1, 1, [1], Active), 1 := Part(1, 1, [2], Active)];
            && Listing(ps, [0, 1]) && Listing(ps, [1, 0])
            && Body(ps, [0, 1]) == [1, 2] && Body(ps, [1, 0]) == [2, 1]
  {
    var ps := map[0 := Part(1, 1, [1], Active), 1 := Part(1, 1, [2], Active)];
    BodyOne(ps, 0);
    BodyOne(ps, 1);
    BodyJoined(ps, [0], [1]);
    BodyJoined(ps, [1], [0]);
    assert [0] + [1] == [0, 1] && [1] + [0] == [1, 0];
  }
}
