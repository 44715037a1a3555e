// No empty table stays in the pod store, and no operation is turned away without cause.
module PodsTight {
  import opened Common
  import opened Pods
  import opened PodsSafety

  // An add goes on to insert exactly when its table is the one in the store, and begins again
  // when it has been thrown away.
  lemma InsertsExactly(s: Sys, p: OpId)
    requires Reachable(true, s) && p in s.ops && s.ops[p].AddCheck?
    ensures var pc, t := s.ops[p], Apply(true, s, Go(p));
            && p in t.ops && (t.ops[p].AddInsert? || t.ops[p] == AddUnlock(pc.pod, pc.t, true))
            && (t.ops[p].AddInsert? <==> pc.pod.fn in s.w.store && s.w.store[pc.pod.fn] == pc.t)
  {
    ReachableInv(s);
    assert OpOk(s, p) && TableOk(s, s.ops[p].t);
  }

  // A delete throws the table away exactly when it leaves the function without pods.
  lemma ErasesExactly(s: Sys, p: OpId)
    requires Reachable(true, s) && p in s.ops && s.ops[p].DelCheck?
    ensures var t := Apply(true, s, Go(p));
            p in t.ops && (t.ops[p].DelErase? <==> PodsOf(s.w, s.ops[p].pod.fn) == {})
  {
    ReachableInv(s);
    assert OpOk(s, p) && TableOk(s, s.ops[p].t);
  }

  // On its way to insert into this table, or to throw it away if it is empty.
  predicate Tends(pc: Pc, t: TableId) {
    match pc
    case AddLock(_, x) => x == t
    case AddCheck(_, x) => x == t
    case AddInsert(_, x) => x == t
    case DelCheck(_, x) => x == t
    case DelErase(_, x) => x == t
    case _ => false
  }

  predicate Tending(s: Sys, p: OpId, t: TableId) { p in s.ops && Tends(s.ops[p], t) }

  // An empty table is in the store only while somebody tends it.
  ghost predicate Tight(s: Sys, fn: FnId) {
    fn in s.w.store && PodsOf(s.w, fn) == {} ==> exists p :: Tending(s, p, s.w.store[fn])
  }

  lemma OthersTend(s: Sys, st: Step, q: OpId, t: TableId)
    requires Enabled(true, s, st) && Tending(s, q, t) && q != st.p
    ensures Tending(Apply(true, s, st), q, t)
  {
  }

  // A step of an add.
  lemma AddTight(s: Sys, p: OpId, fn: FnId)
    requires Inv(s) && Enabled(true, s, Go(p)) && !IsLook(s.ops[p]) && !IsDel(s.ops[p]) && Tight(s, fn)
    ensures Tight(Apply(true, s, Go(p)), fn)
  {
    var t := Apply(true, s, Go(p));
    assert OpOk(s, p) && StoreOk(s.w, fn);
    if fn in t.w.store && PodsOf(t.w, fn) == {} {
      var x := t.w.store[fn];
      assert TableOk(s, x) && PodsOf(s.w, fn) == {};
      var q :| Tending(s, q, x);
      if q != p { OthersTend(s, Go(p), q, x); } else { assert Tending(t, p, x); }
    }
  }

  lemma DelTight(s: Sys, p: OpId, fn: FnId)
    requires Inv(s) && Enabled(true, s, Go(p)) && IsDel(s.ops[p]) && Tight(s, fn)
    ensures Tight(Apply(true, s, Go(p)), fn)
  {
    var t := Apply(true, s, Go(p));
    assert OpOk(s, p) && StoreOk(s.w, fn);
    if fn in t.w.store && PodsOf(t.w, fn) == {} {
      var x := t.w.store[fn];
      assert TableOk(s, x);
      if s.ops[p].DelRemove? && s.ops[p].t == x {
        assert Tending(t, p, x);
      } else {
        assert PodsOf(s.w, fn) == {};
        var q :| Tending(s, q, x);
        if q != p { OthersTend(s, Go(p), q, x); } else { assert Tending(t, p, x); }
      }
    }
  }

  lemma LookTight(s: Sys, p: OpId, fn: FnId)
    requires Inv(s) && Enabled(true, s, Go(p)) && IsLook(s.ops[p]) && Tight(s, fn)
    ensures Tight(Apply(true, s, Go(p)), fn)
  {
    var t := Apply(true, s, Go(p));
    assert StoreOk(s.w, fn);
    if fn in t.w.store && PodsOf(t.w, fn) == {} {
      var q :| Tending(s, q, s.w.store[fn]);
      OthersTend(s, Go(p), q, s.w.store[fn]);
    }
  }

  lemma StoreTight(s: Sys, p: OpId, id: TableId, fn: FnId)
    requires Inv(s) && Enabled(true, s, Store(p, id)) && Tight(s, fn)
    ensures Tight(Apply(true, s, Store(p, id)), fn)
  {
    var t := Apply(true, s, Store(p, id));
    assert StoreOk(s.w, fn);
    if fn in t.w.store && PodsOf(t.w, fn) == {} {
      if fn in s.w.store {
        var q :| Tending(s, q, s.w.store[fn]);
        OthersTend(s, Store(p, id), q, s.w.store[fn]);
      } else {
        assert Tending(t, p, id);
      }
    }
  }

  lemma StepTight(s: Sys, st: Step, fn: FnId)
    requires Inv(s) && Enabled(true, s, st) && Tight(s, fn)
    ensures Tight(Apply(true, s, st), fn)
  {
    match st {
      case Store(p, id) => StoreTight(s, p, id, fn);
      case Go(p) =>
        if IsLook(s.ops[p]) { LookTight(s, p, fn); }
        else if IsDel(s.ops[p]) { DelTight(s, p, fn); }
        else { AddTight(s, p, fn); }
      case _ =>
        if q :| fn in s.w.store && Tending(s, q, s.w.store[fn]) { OthersTend(s, st, q, s.w.store[fn]); }
    }
  }

  lemma {:induction false} RunTight(run: seq<Sys>, i: nat, fn: FnId)
    requires IsRun(true, run) && i < |run|
    ensures Inv(run[i]) && Tight(run[i], fn)
  {
    RunKeepsInv(run, i);
    if i > 0 {
      RunTight(run, i - 1, fn);
      assert Next(true, run[i - 1], run[i - 1 + 1]);
      var st :| Enabled(true, run[i - 1], st) && run[i] == Apply(true, run[i - 1], st);
      StepTight(run[i - 1], st, fn);
    }
  }

  // With nothing in flight every function in the store has pods: whatever was interleaved, the
  // tables that ran empty are gone.
  lemma QuietStoreIsTight(s: Sys, fn: FnId)
    requires Reachable(true, s) && s.ops == map[]
    ensures fn in s.w.store <==> PodsOf(s.w, fn) != {}
  {
    var run :| IsRun(true, run) && s == run[|run| - 1];
    RunTight(run, |run| - 1, fn);
  }
}
