// The store's operations run one at a time, with their rollbacks, on the three tables they
// update in place.
module S3Ops {
  import opened Common
  import opened Ledger
  import opened S3Db
  import PartStore

  type Limits = map<NsId, nat>

  // StatsAcct leaves a record behind even when the charge is taken back.
  function Touched(st: StatsTable, n: NsId): StatsTable { StatsAcct(st, n, 0, 0) }

  // May this bucket take one more object of this size?
  predicate Accepts(lim: Limits, st: StatsTable, bs: Buckets, h: Handle, size: nat) {
    && h.id in bs && bs[h.id].state == Active
    && !(h.ns in lim && lim[h.ns] > 0 && (if h.ns in st then st[h.ns].cntBytes else 0) + size > lim[h.ns])
  }

  // The sizes of these records together.
  ghost function Sizes(os: Objects, xs: seq<ObjId>): nat {
    if xs == [] then 0
    else Sizes(os, xs[..|xs| - 1]) + (if xs[|xs| - 1] in os then os[xs[|xs| - 1]].size else 0)
  }

  ghost function Poorer(st: StatsTable, h: Handle, n: nat, bytes: nat): StatsTable
    requires h.ns in st
  {
    st[h.ns := Stats(st[h.ns].cntObjects - n, st[h.ns].cntBytes - bytes)]
  }

  ghost function Lighter(bs: Buckets, h: Handle, n: nat, bytes: nat): Buckets
    requires h.id in bs
  {
    bs[h.id := Bump(bs[h.id], Inc(-(n as int), -(bytes as int), 0, 0))]
  }

  function Without(os: Objects, xs: seq<ObjId>): Objects { map x | x in os && x !in xs :: os[x] }

  lemma ListStep(os: Objects, xs: seq<ObjId>, i: nat)
    requires i < |xs| && xs[i] in os && forall j :: 0 <= j < i ==> xs[j] != xs[i]
    ensures Sizes(os, xs[..i + 1]) == Sizes(os, xs[..i]) + os[xs[i]].size
    ensures xs[i] in Without(os, xs[..i]) && Without(os, xs[..i]) - {xs[i]} == Without(os, xs[..i + 1])
  {
    assert xs[..i + 1] == xs[..i] + [xs[i]] && xs[..i + 1][..i] == xs[..i];
    assert forall x :: x in xs[..i + 1] <==> x in xs[..i] || x == xs[i];
  }

  ghost function Charged(bs: Buckets, h: Handle, n: int, bytes: int): Buckets
    requires h.id in bs
  {
    bs[h.id := Bump(bs[h.id], Inc(n, bytes, 0, 1))]
  }

  // One version less.
  lemma OneLess(bs: Buckets, st: StatsTable, h: Handle, n: nat, bytes: nat, size: nat)
    requires h.id in bs && h.ns in st
    ensures var l := Lighter(bs, h, n, bytes);
            l[h.id := Bump(l[h.id], Inc(-1, -(size as int), 0, 0))]
            == Lighter(bs, h, n + 1, bytes + size)
    ensures StatsAcct(Poorer(st, h, n, bytes), h.ns, -1, -(size as int)) == Poorer(st, h, n + 1, bytes + size)
  {
  }

  // Some version of a set has the highest rover.
  lemma {:induction false} HasTop(os: Objects, xs: set<ObjId>)
    requires xs != {} && forall x :: x in xs ==> x in os
    ensures exists x :: x in xs && forall y :: y in xs ==> os[y].rover <= os[x].rover
    decreases xs
  {
    var x :| x in xs;
    if xs != {x} {
      var rest := xs - {x};
      assert rest == {} ==> xs == {x};
      HasTop(os, rest);
      var t :| t in rest && forall y :: y in rest ==> os[y].rover <= os[t].rover;
      var top := if os[t].rover >= os[x].rover then t else x;
      forall y | y in xs ensures os[y].rover <= os[top].rover { assert y == x || y in rest; }
      assert top in xs;
    }
  }

  // --- the versions of one key ---

  ghost function Versions(os: Objects, c: OCookie): set<ObjId> { set x | x in os && IsVersion(os, c, x) }

  // The table without them.
  function Unversioned(os: Objects, c: OCookie): Objects { map x | x in os && !IsVersion(os, c, x) :: os[x] }

  ghost function TotalSize(os: Objects, xs: set<ObjId>): nat
    requires forall x :: x in xs ==> x in os
  {
    if xs == {} then 0
    else
      var x :| x in xs;
      os[x].size + TotalSize(os, xs - {x})
  }

  lemma {:induction false} TotalSizeRemove(os: Objects, xs: set<ObjId>, x: ObjId)
    requires x in xs && forall y :: y in xs ==> y in os
    ensures TotalSize(os, xs) == os[x].size + TotalSize(os, xs - {x})
    decreases xs
  {
    var y :| y in xs && TotalSize(os, xs) == os[y].size + TotalSize(os, xs - {y});
    if y != x {
      TotalSizeRemove(os, xs - {y}, x);
      TotalSizeRemove(os, xs - {x}, y);
      assert xs - {y} - {x} == xs - {x} - {y};
    }
  }

  lemma {:induction false} TotalSizeFrame(os: Objects, ps: Objects, xs: set<ObjId>)
    requires forall x :: x in xs ==> x in os && x in ps && os[x].size == ps[x].size
    ensures TotalSize(os, xs) == TotalSize(ps, xs)
    decreases xs
  {
    if x :| x in xs {
      TotalSizeRemove(os, xs, x);
      TotalSizeRemove(ps, xs, x);
      TotalSizeFrame(os, ps, xs - {x});
    }
  }

  // A list of distinct records weighs what the set of them does.
  lemma {:induction false} ListWeighs(os: Objects, todo: seq<ObjId>, xs: set<ObjId>)
    requires forall i, j :: 0 <= i < j < |todo| ==> todo[i] != todo[j]
    requires forall x :: x in todo <==> x in xs
    requires forall x :: x in xs ==> x in os
    ensures |todo| == |xs| && Sizes(os, todo) == TotalSize(os, xs)
    decreases |todo|
  {
    if todo == [] {
      assert xs == {};
    } else {
      var n := |todo| - 1;
      assert todo[n] in todo;
      forall x ensures x in todo[..n] <==> x in xs - {todo[n]} {
        if x in xs && x != todo[n] {
          var i :| 0 <= i < |todo| && todo[i] == x;
          assert todo[..n][i] == x;
        }
      }
      ListWeighs(os, todo[..n], xs - {todo[n]});
      TotalSizeRemove(os, xs, todo[n]);
    }
  }

  function NewObject(bs: Buckets, h: Handle, key: string, size: nat): Object
    requires h.id in bs
  {
    Object(h.id, OCookie(h.bcookie, key), size, Active, bs[h.id].rover + 1)
  }

  // A put run on its own makes the new object the current version of its key, and the
  // threshold it hands to the collector takes every other version of the key and spares it.
  lemma PutBecomesCurrent(os: Objects, bs: Buckets, h: Handle, id: ObjId, key: string, size: nat)
    requires id !in os && Tidy(os, bs, h)
    ensures var after := os[id := NewObject(bs, h, key, size)];
            && IsCurrent(after, OCookie(h.bcookie, key), id)
            && forall x :: x in after && after[x].state == Active && after[x].ocookie == OCookie(h.bcookie, key) ==>
                 (Outdated(after, h.id, key, bs[h.id].rover + 1, x) <==> x != id)
  {
  }

  ghost function OutdatedSet(os: Objects, b: BucketId, key: string, below: int): set<ObjId> {
    set x | x in os && Outdated(os, b, key, below, x)
  }

  // That threshold takes the same versions whether the new object is still there or not.
  lemma TakesOldVersions(os: Objects, bs: Buckets, h: Handle, id: ObjId, key: string, size: nat)
    requires id !in os && Tidy(os, bs, h)
    ensures var c, n, below := OCookie(h.bcookie, key), NewObject(bs, h, key, size), bs[h.id].rover + 1;
            var vs := Versions(os, c);
            && OutdatedSet(os[id := n], h.id, key, below) == vs == OutdatedSet(os, h.id, key, below)
            && TotalSize(os[id := n], vs) == TotalSize(os, vs)
            && os[id := n] - vs == Unversioned(os, c)[id := n] && os - vs == Unversioned(os, c)
  {
    var c, n := OCookie(h.bcookie, key), NewObject(bs, h, key, size);
    PutBecomesCurrent(os, bs, h, id, key, size);
    TotalSizeFrame(os[id := n], os, Versions(os, c));
  }

  // x is the only version FindCurObject may return.
  ghost predicate OnlyTop(os: Objects, c: OCookie, x: ObjId) {
    IsVersion(os, c, x) && forall y :: IsVersion(os, c, y) && y != x ==> os[y].rover < os[x].rover
  }

  // The new object is the current version before and after the collection.
  lemma OnlyCurrent(os: Objects, bs: Buckets, h: Handle, id: ObjId, key: string, size: nat)
    requires id !in os && Tidy(os, bs, h)
    ensures var c, n := OCookie(h.bcookie, key), NewObject(bs, h, key, size);
            && OnlyTop(os[id := n], c, id) && OnlyTop(Unversioned(os, c)[id := n], c, id)
            && Versions(Unversioned(os, c)[id := n], c) == {id}
  {
    var c, n := OCookie(h.bcookie, key), NewObject(bs, h, key, size);
    PutBecomesCurrent(os, bs, h, id, key, size);
    assert IsVersion(os[id := n], c, id) && IsVersion(Unversioned(os, c)[id := n], c, id);
  }

  datatype Tables = Tables(objects: Objects, buckets: Buckets, stats: StatsTable)

  // The tables behind a put: with the new object or without it, the versions before it
  // collected or not. Each is charged for what is there.
  ghost function Staged(t: Tables, h: Handle, id: ObjId, key: string, size: nat, here: bool, collected: bool): Tables
    requires h.id in t.buckets
  {
    var c := OCookie(h.bcookie, key);
    var old' := if collected then Versions(t.objects, c) else {};
    var rest := if collected then Unversioned(t.objects, c) else t.objects;
    var bytes := TotalSize(t.objects, old');
    Tables(if here then rest[id := NewObject(t.buckets, h, key, size)] else rest,
           Lighter(if here then Charged(t.buckets, h, 1, size) else Charged(t.buckets, h, 0, 0), h, |old'|, bytes),
           Poorer(if here then StatsAcct(t.stats, h.ns, 1, size) else Touched(t.stats, h.ns), h, |old'|, bytes))
  }

  lemma TakeOwn(bs: Buckets, st: StatsTable, h: Handle, size: nat, count: nat, bytes: nat)
    requires h.id in bs
    ensures var with := Lighter(Charged(bs, h, 1, size), h, count, bytes);
            with[h.id := Bump(with[h.id], Inc(-1, -(size as int), 0, 0))]
            == Lighter(Charged(bs, h, 0, 0), h, count, bytes)
    ensures StatsAcct(Poorer(StatsAcct(st, h.ns, 1, size), h, count, bytes), h.ns, -1, -(size as int))
            == Poorer(Touched(st, h.ns), h, count, bytes)
  {
  }

  lemma NothingTaken(bs: Buckets, st: StatsTable, h: Handle)
    requires h.id in bs && h.ns in st
    ensures Lighter(bs, h, 0, 0) == bs && Poorer(st, h, 0, 0) == st
  {
    assert bs[h.id := bs[h.id]] == bs && st[h.ns := st[h.ns]] == st;
  }

  lemma TakeAll(bs: Buckets, st: StatsTable, h: Handle, count: nat, bytes: nat)
    requires h.id in bs && h.ns in st
    ensures Lighter(Lighter(bs, h, 0, 0), h, count, bytes) == Lighter(bs, h, count, bytes)
    ensures Poorer(Poorer(st, h, 0, 0), h, count, bytes) == Poorer(st, h, count, bytes)
  {
  }

  // With the versions collected the table changes exactly when there were any.
  lemma LosesExactly(os: Objects, c: OCookie)
    ensures Unversioned(os, c) != os <==> Versions(os, c) != {}
  {
    if x :| x in Versions(os, c) {
      assert x in os && x !in Unversioned(os, c);
    } else {
      assert forall x :: x in os ==> x !in Versions(os, c);
      assert Unversioned(os, c) == os;
    }
  }

  // Does AddObject commit this put?
  predicate Commits(lim: Limits, t: Tables, h: Handle, id: ObjId, size: nat, dataOk: bool) {
    size > 0 && id !in t.objects && Accepts(lim, t.stats, t.buckets, h, size) && dataOk
  }

  // What a refused put leaves behind: a rover number and an empty stats record at most.
  ghost predicate NoTrace(s: Tables, t: Tables, h: Handle) {
    && t.objects == s.objects
    && (t.stats == s.stats || t.stats == Touched(s.stats, h.ns))
    && (t.buckets == s.buckets || (h.id in s.buckets && t.buckets == Charged(s.buckets, h, 0, 0)))
  }

  class Store {
    var stats: StatsTable
    var buckets: Buckets
    var objects: Objects

    method AcctObj(lim: Limits, h: Handle, size: nat) returns (ok: bool, rover: int)
      modifies this
      ensures objects == old(objects)
      // refused exactly by a bucket that is not Active, and by a limit above zero that what is
      // charged and the size exceed together
      ensures var bytes := if h.ns in old(stats) then old(stats)[h.ns].cntBytes else 0;
              !ok <==> h.id !in old(buckets) || old(buckets)[h.id].state != Active
                       || (h.ns in lim && lim[h.ns] > 0 && bytes + size > lim[h.ns])
      ensures ok ==> stats == StatsAcct(old(stats), h.ns, 1, size)
      ensures ok ==>
              buckets == old(buckets)[h.id := Bump(old(buckets)[h.id], Inc(1, size, 1, 1))]
              && rover == buckets[h.id].rover
      ensures !ok ==> stats == Touched(old(stats), h.ns) && buckets == old(buckets)
    {
      ok, rover := false, 0;
      stats := StatsAcct(stats, h.ns, 1, size);
      if Limited(lim, h.ns, stats[h.ns].cntBytes) {
        stats := StatsAcct(stats, h.ns, -1, -(size as int));
        return;
      }
      var bs := BucketAcct(buckets, h.id, Inc(1, size, 1, 1));
      if bs.None? {
        stats := StatsAcct(stats, h.ns, -1, -(size as int));
        return;
      }
      buckets := bs.value;
      ok, rover := true, buckets[h.id].rover;
    }

    method UnacctObj(h: Handle, size: nat, dropref: bool) returns (ok: bool)
      modifies this
      ensures objects == old(objects)
      ensures ok <==> h.id in old(buckets) && old(buckets)[h.id].state == Active && h.ns in old(stats)
      ensures h.id in old(buckets) && old(buckets)[h.id].state == Active ==>
                buckets == old(buckets)[h.id :=
                    Bump(old(buckets)[h.id], Inc(-1, -(size as int), if dropref then -1 else 0, 0))]
      ensures !(h.id in old(buckets) && old(buckets)[h.id].state == Active) ==> buckets == old(buckets)
      ensures stats == if ok then StatsAcct(old(stats), h.ns, -1, -(size as int)) else old(stats)
    {
      var bs := BucketAcct(buckets, h.id, Inc(-1, -(size as int), if dropref then -1 else 0, 0));
      if bs.None? { return false; }
      buckets := bs.value;
      var st := StatsUnacct(stats, h.ns, -1, -(size as int));
      if st.None? { return false; }
      stats := st.value;
      return true;
    }

    method CommitObj(h: Handle) returns (ok: bool, rover: int)
      modifies this
      ensures objects == old(objects) && stats == old(stats)
      ensures ok <==> h.id in old(buckets) && old(buckets)[h.id].state == Active
      ensures ok ==>
              buckets == old(buckets)[h.id := Bump(old(buckets)[h.id], Inc(0, 0, -1, 0))]
              && rover == buckets[h.id].rover
      ensures !ok ==> buckets == old(buckets)
    {
      ok, rover := false, 0;
      var bs := BucketAcct(buckets, h.id, Inc(0, 0, -1, 0));
      if bs.Some? {
        buckets := bs.value;
        ok, rover := true, buckets[h.id].rover;
      }
    }

    // AddObject; dataOk is whether AddPart stores the body.
    method AddObject(lim: Limits, h: Handle, id: ObjId, key: string, size: nat, dataOk: bool)
      returns (ok: bool, below: int)
      modifies this
      ensures var bytes := if h.ns in old(stats) then old(stats)[h.ns].cntBytes else 0;
              !ok <==> id in old(objects) || !dataOk
                       || h.id !in old(buckets) || old(buckets)[h.id].state != Active
                       || (h.ns in lim && lim[h.ns] > 0 && bytes + size > lim[h.ns])
      ensures ok ==> objects == old(objects)[id :=
              Object(h.id, OCookie(h.bcookie, key), size, Active, old(buckets)[h.id].rover + 1)]
      ensures ok ==> stats == StatsAcct(old(stats), h.ns, 1, size)
      ensures ok ==> buckets == old(buckets)[h.id := Bump(old(buckets)[h.id], Inc(1, size, 0, 1))]
      ensures ok ==> below == old(buckets)[h.id].rover + 1
      // a refused or failed put leaves no trace but a rover number and an empty stats record
      ensures !ok ==> objects == old(objects)
      ensures !ok ==> stats == old(stats) || stats == Touched(old(stats), h.ns)
      ensures !ok ==>
              buckets == old(buckets)
              || (h.id in old(buckets) && buckets == old(buckets)[h.id := Bump(old(buckets)[h.id], Inc(0, 0, 0, 1))])
    {
      ok, below := false, 0;
      if id in objects { return; }
      objects := objects[id := Object(h.id, OCookie(h.bcookie, key), size, NoneState, 0)];
      var charged, rover := AcctObj(lim, h, size);
      if !charged {
        objects := objects - {id};
        assert objects == old(objects);
        return;
      }
      if dataOk {
        var os := SetObject(objects, id, Active, Some(rover));
        if os.Some? {
          objects := os.value;
          ok, below := CommitObj(h);
        }
      }
      if !ok {
        var _ := UnacctObj(h, size, true);
        objects := objects - {id};
        assert objects == old(objects);
        assert stats == Touched(old(stats), h.ns);
      }
    }

    method DropObject(h: Handle, id: ObjId) returns (ok: bool)
      modifies this
      ensures id !in old(objects) || old(objects)[id].state != Active ==>
                !ok && objects == old(objects) && buckets == old(buckets) && stats == old(stats)
      ensures id in old(objects) && old(objects)[id].state == Active ==>
                (ok <==> h.id in old(buckets) && old(buckets)[h.id].state == Active && h.ns in old(stats))
      ensures ok ==> objects == old(objects) - {id}
      ensures ok ==> buckets == old(buckets)[h.id :=
              Bump(old(buckets)[h.id], Inc(-1, -(old(objects)[id].size as int), 0, 0))]
      ensures ok ==> stats == StatsAcct(old(stats), h.ns, -1, -(old(objects)[id].size as int))
      // a failed unaccounting leaves the record Inactive
      ensures !ok && id in old(objects) && old(objects)[id].state == Active ==>
                objects == old(objects)[id := old(objects)[id].(state := Inactive)] && stats == old(stats)
    {
      var os := SetObject(objects, id, Inactive, None);
      if os.None? { return false; }
      objects := os.value;
      ok := UnacctObj(h, objects[id].size, false);
      if ok {
        var left := RemoveObject(objects, id, Inactive);
        objects := left.value;
        assert objects == old(objects) - {id};
      }
    }

    // gcOldVersions on the list its query returned.
    method GcOldVersions(h: Handle, key: string, below: int, todo: seq<ObjId>)
      requires GcList(objects, h.id, key, below, todo)
      requires h.id in buckets && buckets[h.id].state == Active && h.ns in stats
      modifies this
      ensures forall x :: x in objects <==> x in old(objects) && !Outdated(old(objects), h.id, key, below, x)
      ensures forall x :: x in objects ==> objects[x] == old(objects)[x]
      ensures buckets == Lighter(old(buckets), h, |todo|, Sizes(old(objects), todo))
      ensures stats == Poorer(old(stats), h, |todo|, Sizes(old(objects), todo))
    {
      var i := 0;
      ghost var os := objects;
      ghost var bytes := 0;
      assert objects == Without(os, todo[..0]);
      while i < |todo|
        invariant 0 <= i <= |todo|
        invariant objects == Without(os, todo[..i])
        invariant h.id in buckets && buckets[h.id].state == Active && h.ns in stats
        invariant bytes == Sizes(os, todo[..i])
        invariant buckets == Lighter(old(buckets), h, i, bytes) && stats == Poorer(old(stats), h, i, bytes)
      {
        assert todo[i] in todo && Outdated(os, h.id, key, below, todo[i]);
        ListStep(os, todo, i);
        var ok := DropObject(h, todo[i]);
        OneLess(old(buckets), old(stats), h, i, bytes, os[todo[i]].size);
        bytes := bytes + os[todo[i]].size;
        i := i + 1;
      }
      assert todo[..i] == todo;
    }

    // The query of FindCurObject: the version with the highest rover.
    method FindCur(h: Handle, key: string) returns (cur: Option<ObjId>)
      ensures cur.None? ==> NoCurrent(objects, OCookie(h.bcookie, key))
      ensures cur.Some? ==> IsCurrent(objects, OCookie(h.bcookie, key), cur.value)
    {
      var found := set x | x in objects && IsVersion(objects, OCookie(h.bcookie, key), x);
      if found == {} {
        assert forall x :: IsVersion(objects, OCookie(h.bcookie, key), x) ==> x in found;
        return None;
      }
      HasTop(objects, found);
      var x :| x in found && forall y :: y in found ==> objects[y].rover <= objects[x].rover;
      return Some(x);
    }

    // s3DeleteObject
    method DeleteObject(h: Handle, key: string) returns (ok: bool, gone: Option<ObjId>)
      modifies this
      ensures gone.None? ==> ok && NoCurrent(old(objects), OCookie(h.bcookie, key)) && objects == old(objects)
      ensures gone.None? ==> buckets == old(buckets) && stats == old(stats)
      ensures gone.Some? ==> IsCurrent(old(objects), OCookie(h.bcookie, key), gone.value)
      ensures gone.Some? ==> (ok <==> h.id in old(buckets) && old(buckets)[h.id].state == Active && h.ns in old(stats))
      ensures gone.Some? && ok ==>
                && objects == old(objects) - {gone.value}
                && buckets == old(buckets)[h.id :=
                     Bump(old(buckets)[h.id], Inc(-1, -(old(objects)[gone.value].size as int), 0, 0))]
                && stats == StatsAcct(old(stats), h.ns, -1, -(old(objects)[gone.value].size as int))
    {
      gone := FindCur(h, key);
      if gone.None? { return true, None; }
      ok := DropObject(h, gone.value);
    }

    // The query of gcOldVersions, newest first.
    method FindOutdated(h: Handle, key: string, below: int) returns (todo: seq<ObjId>)
      ensures GcList(objects, h.id, key, below, todo)
    {
      var left := set x | x in objects && Outdated(objects, h.id, key, below, x);
      todo := [];
      while left != {}
        invariant forall x :: x in todo || x in left <==> Outdated(objects, h.id, key, below, x)
        invariant forall x :: x in todo ==> x !in left
        invariant forall i, j :: 0 <= i < j < |todo| ==> todo[i] != todo[j]
        invariant forall i, j :: 0 <= i < j < |todo| && todo[i] in objects && todo[j] in objects ==>
                    objects[todo[i]].rover >= objects[todo[j]].rover
        invariant forall x, y :: x in todo && y in left && x in objects ==> objects[x].rover >= objects[y].rover
        decreases left
      {
        HasTop(objects, left);
        var x :| x in left && forall y :: y in left ==> objects[y].rover <= objects[x].rover;
        todo := todo + [x];
        left := left - {x};
      }
    }

    ghost function All(): Tables
      reads this
    {
      Tables(objects, buckets, stats)
    }

    // gcOldVersions
    method Collect(h: Handle, key: string, below: int)
      requires h.id in buckets && buckets[h.id].state == Active && h.ns in stats
      modifies this
      ensures var gone := OutdatedSet(old(objects), h.id, key, below);
              var bytes := TotalSize(old(objects), gone);
              && objects == old(objects) - gone
              && buckets == Lighter(old(buckets), h, |gone|, bytes)
              && stats == Poorer(old(stats), h, |gone|, bytes)
    {
      var todo := FindOutdated(h, key, below);
      ListWeighs(objects, todo, OutdatedSet(objects, h.id, key, below));
      GcOldVersions(h, key, below, todo);
    }

    // The collection of a put, with its object there or deleted again.
    method CollectOthers(h: Handle, id: ObjId, key: string, size: nat, below: int, ghost t: Tables, ghost here: bool)
      requires id !in t.objects && Tidy(t.objects, t.buckets, h) && t.buckets[h.id].state == Active
      requires below == t.buckets[h.id].rover + 1 && All() == Staged(t, h, id, key, size, here, false)
      modifies this
      ensures All() == Staged(t, h, id, key, size, here, true)
    {
      TakesOldVersions(t.objects, t.buckets, h, id, key, size);
      Collect(h, key, below);
      ghost var vs := Versions(t.objects, OCookie(h.bcookie, key));
      TakeAll(if here then Charged(t.buckets, h, 1, size) else Charged(t.buckets, h, 0, 0),
              if here then StatsAcct(t.stats, h.ns, 1, size) else Touched(t.stats, h.ns), h, |vs|,
              TotalSize(t.objects, vs));
    }

    // A delete by name behind a put, with the versions before it collected or not.
    method DeleteOwn(h: Handle, id: ObjId, key: string, size: nat, ghost t: Tables, ghost collected: bool)
      requires id !in t.objects && Tidy(t.objects, t.buckets, h) && t.buckets[h.id].state == Active
      requires All() == Staged(t, h, id, key, size, true, collected)
      modifies this
      ensures All() == Staged(t, h, id, key, size, false, collected)
    {
      OnlyCurrent(t.objects, t.buckets, h, id, key, size);
      var _, gone := DeleteObject(h, key);
      ghost var vs := if collected then Versions(t.objects, OCookie(h.bcookie, key)) else {};
      TakeOwn(t.buckets, t.stats, h, size, |vs|, TotalSize(t.objects, vs));
      assert IsVersion(old(objects), OCookie(h.bcookie, key), id);
    }

    // A put and the collection it starts: one version of the key is left, the new one, and
    // nothing else is touched.
    method PutAndCollect(lim: Limits, h: Handle, id: ObjId, key: string, size: nat, dataOk: bool) returns (ok: bool)
      requires Tidy(objects, buckets, h)
      modifies this
      ensures ok <==> id !in old(objects) && Accepts(lim, old(stats), old(buckets), h, size) && dataOk
      ensures ok ==> All() == Staged(old(All()), h, id, key, size, true, true)
      ensures ok ==> Versions(objects, OCookie(h.bcookie, key)) == {id}
      ensures !ok ==> NoTrace(old(All()), All(), h)
    {
      var below;
      ok, below := AddObject(lim, h, id, key, size, dataOk);
      if ok {
        NothingTaken(buckets, stats, h);
        CollectOthers(h, id, key, size, below, old(All()), true);
        OnlyCurrent(old(objects), old(buckets), h, id, key, size);
      }
    }

    // handlePutObject. The collection that a committed put starts runs beside the handler,
    // before (gcFirst) or after its test for a short body; an object whose body was short is
    // deleted again by its key, and run alone that is the object just put. But the versions
    // before it are collected all the same: a put that is refused changes the objects exactly
    // when it was committed, its body being found short only then, and the key had a version.
    method PutObject(lim: Limits, h: Handle, id: ObjId, key: string, size: nat, len: nat, broken: bool,
                     inlineMax: nat, gcFirst: bool)
      returns (kept: bool)
      requires Tidy(objects, buckets, h)
      modifies this
      ensures var done := Commits(lim, old(All()), h, id, size, PartStore.Stores(len, broken, size, inlineMax));
              && (kept <==> done && len >= size)
              && (done ==> All() == Staged(old(All()), h, id, key, size, kept, true))
              && (!done ==> NoTrace(old(All()), All(), h))
              && (!kept ==> (objects != old(objects)
                             <==> done && Versions(old(objects), OCookie(h.bcookie, key)) != {}))
      ensures Versions(objects, OCookie(h.bcookie, key))
              == if kept then {id}
                 else if Commits(lim, old(All()), h, id, size, PartStore.Stores(len, broken, size, inlineMax)) then {}
                 else Versions(old(objects), OCookie(h.bcookie, key))
    {
      ghost var t, c := All(), OCookie(h.bcookie, key);
      if size == 0 { return false; }
      var ok, below := AddObject(lim, h, id, key, size, PartStore.Stores(len, broken, size, inlineMax));
      if !ok { return false; }
      NothingTaken(buckets, stats, h);
      if gcFirst { CollectOthers(h, id, key, size, below, t, true); }
      if len < size { DeleteOwn(h, id, key, size, t, gcFirst); }
      if !gcFirst { CollectOthers(h, id, key, size, below, t, len >= size); }
      OnlyCurrent(t.objects, t.buckets, h, id, key, size);
      LosesExactly(t.objects, c);
      return len >= size;
    }
  }

  // Three bytes of eight announced, over the inline limit of four, and the connection breaks:
  // the put is refused, and the object that was there is gone.
  method ShortPutLosesOld(gcFirst: bool) returns (kept: bool, before: Objects, after: Objects)
    ensures before == map[1 := Object(0, OCookie("bucket", "a"), 5, Active, 1)]
    ensures !kept && after == map[]
  {
    var h := Handle(0, "bucket", 0);
    var store := new Store;
    store.objects := map[1 := Object(0, OCookie("bucket", "a"), 5, Active, 1)];
    store.buckets := map[0 := Bucket("bucket", 0, Active, 1, 5, 0, 1)];
    store.stats := map[0 := Stats(1, 5)];
    before := store.objects;
    assert Unversioned(before, OCookie("bucket", "a")) == map[];
    kept := store.PutObject(map[], h, 2, "a", 8, 3, true, 4, gcFirst);
    after := store.objects;
  }

  // A put into a bucket of one namespace, with 60 bytes charged.
  method PutBySixty(limit: nat, size: nat) returns (ok: bool)
    ensures ok <==> limit == 0 || 60 + size <= limit
  {
    var h, store := Handle(0, "bucket", 0), new Store;
    store.objects, store.stats := map[], map[0 := Stats(3, 60)];
    store.buckets := map[0 := Bucket("bucket", 0, Active, 3, 60, 0, 3)];
    var below;
    ok, below := store.AddObject(map[0 := limit], h, 1, "a", size, true);
  }

  // With 60 bytes of 100 charged a put of 40 fits and one of 41 does not; a limit of zero is
  // none.
  method FitsExactly() returns (fits: bool, over: bool, free: bool)
    ensures fits && !over && free
  {
    fits := PutBySixty(100, 40);
    over := PutBySixty(100, 41);
    free := PutBySixty(0, 1);
  }
}
