// The pod store's code on its objects, one call at a time.
module PodOps {
  import opened Pods

  class FnPods {
    var pods: map<Uid, Pod>
    var dead: bool

    constructor ()
      ensures pods == map[] && !dead
    {
      pods, dead := map[], false;
    }
  }

  class PodStore {
    var store: map<FnId, FnPods>

    ghost predicate TableOk(fn: FnId)
      requires fn in store
      reads this, store.Values
    {
      && !store[fn].dead && store[fn].pods != map[]
      && forall u :: u in store[fn].pods ==> store[fn].pods[u] == Pod(fn, u)
    }

    // Tables in the store are not dead and not empty, hold pods of their function, and are not
    // shared.
    ghost predicate Valid()
      reads this, store.Values
    {
      && (forall fn :: fn in store ==> TableOk(fn))
      && (forall f, g :: f in store && g in store && f != g ==> store[f] != store[g])
    }

    ghost function Of(fn: FnId): set<Uid>
      reads this, store.Values
    {
      if fn in store then store[fn].pods.Keys else {}
    }

    constructor ()
      ensures Valid() && store == map[]
    {
      store := map[];
    }

    // podsAdd; run alone it never finds a dead table, so it needs no second round.
    method Add(pod: Pod)
      requires Valid()
      modifies this, store.Values
      ensures Valid()
      ensures Of(pod.fn) == old(Of(pod.fn)) + {pod.uid}
      ensures forall fn :: fn != pod.fn ==> Of(fn) == old(Of(fn))
    {
      if pod.fn !in store {
        var made := new FnPods();
        assert forall f :: f in store ==> store[f] in store.Values && store[f] != made;
        store := store[pod.fn := made];
      }
      var fnp := store[pod.fn];
      assert !fnp.dead;
      fnp.pods := fnp.pods[pod.uid := pod];
      assert pod.uid in fnp.pods && TableOk(pod.fn);
      assert forall fn :: fn in store && fn != pod.fn ==> fn in old(store) && old(TableOk(fn));
    }

    // podsDel; a table that runs empty is marked and leaves the store.
    method Del(pod: Pod)
      requires Valid()
      modifies this, store.Values
      ensures Valid()
      ensures Of(pod.fn) == old(Of(pod.fn)) - {pod.uid}
      ensures forall fn :: fn != pod.fn ==> Of(fn) == old(Of(fn))
      ensures pod.fn in store <==> Of(pod.fn) != {}
      ensures pod.fn in old(store) && pod.fn !in store ==> old(store)[pod.fn].dead && old(store)[pod.fn].pods == map[]
    {
      if pod.fn in store {
        var fnp := store[pod.fn];
        fnp.pods := fnp.pods - {pod.uid};
        if |fnp.pods| == 0 {
          fnp.dead := true;
          store := store - {pod.fn};
        }
      }
    }

    // podsFindAll, in the order the map happens to be walked.
    method FindAll(fn: FnId) returns (found: seq<Pod>)
      requires Valid()
      ensures forall u :: u in Of(fn) <==> Pod(fn, u) in found
      ensures |found| == |Of(fn)|
    {
      found := [];
      if fn !in store { return; }
      var left := store[fn].pods.Keys;
      assert TableOk(fn);
      while left != {}
        invariant left <= store[fn].pods.Keys && |found| + |left| == |store[fn].pods.Keys|
        invariant forall u :: u in store[fn].pods.Keys - left <==> Pod(fn, u) in found
        decreases |left|
      {
        var u :| u in left;
        found := found + [store[fn].pods[u]];
        left := left - {u};
      }
    }
  }
}
