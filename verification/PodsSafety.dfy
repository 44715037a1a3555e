// What the pod store keeps with one deleter, any number of adders and any number of lookups.
module PodsSafety {
  import opened Common
  import opened Pods

  predicate OfFn(w: World, t: TableId, fn: FnId) { t in w.tables && w.tables[t].fn == fn }

  // p has locked the table of this function.
  predicate Mine(w: World, t: TableId, fn: FnId, p: OpId) { OfFn(w, t, fn) && w.tables[t].writer == Some(p) }

  // p may be reading the table; if that is dead, the function had no pods since p's call.
  predicate Sees(w: World, t: TableId, fn: FnId, seen: set<set<Uid>>) {
    OfFn(w, t, fn) && (w.tables[t].dead ==> {} in seen)
  }

  predicate Holds(pc: Pc, t: TableId) {
    match pc
    case AddCheck(_, x) => x == t
    case AddInsert(_, x) => x == t
    case AddUnlock(_, x, _) => x == t
    case DelRemove(_, x) => x == t
    case DelCheck(_, x) => x == t
    case DelErase(_, x) => x == t
    case DelUnlock(_, x) => x == t
    case _ => false
  }

  predicate PcOk(w: World, p: OpId, pc: Pc) {
    match pc
    case AddLock(pod, t) => OfFn(w, t, pod.fn)
    case AddCheck(pod, t) => Mine(w, t, pod.fn, p)
    case AddInsert(pod, t) => Mine(w, t, pod.fn, p) && !w.tables[t].dead
    case AddUnlock(pod, t, again) => Mine(w, t, pod.fn, p)
      && (!again ==> !w.tables[t].dead && pod.uid in w.tables[t].pods)
    case DelLock(pod, t) => OfFn(w, t, pod.fn) && !w.tables[t].dead
    case DelRemove(pod, t) => Mine(w, t, pod.fn, p) && !w.tables[t].dead
    case DelCheck(pod, t) => Mine(w, t, pod.fn, p) && !w.tables[t].dead
    case DelErase(pod, t) => Mine(w, t, pod.fn, p) && w.tables[t].dead && pod.fn in w.store && w.store[pod.fn] == t
    case DelUnlock(pod, t) => Mine(w, t, pod.fn, p)
    case LookFind(fn, seen) => PodsOf(w, fn) in seen
    case LookLock(fn, seen, t) => PodsOf(w, fn) in seen && Sees(w, t, fn, seen)
    case LookRead(fn, seen, t) => PodsOf(w, fn) in seen && Sees(w, t, fn, seen) && p in w.tables[t].readers
    case LookUnlock(fn, seen, t, found) => OfFn(w, t, fn) && found in seen && p in w.tables[t].readers
    case LookDone(_, seen, found) => found in seen
    case _ => true
  }

  ghost predicate TableOk(s: Sys, t: TableId) {
    t in s.w.tables ==>
      var table := s.w.tables[t];
      && (!table.dead ==> table.fn in s.w.store && s.w.store[table.fn] == t)
      && (table.dead ==> table.pods == {})
      && (table.writer.Some? ==>
           table.readers == {} && table.writer.value in s.ops
           && Holds(s.ops[table.writer.value], t))
      && (table.dead && table.fn in s.w.store && s.w.store[table.fn] == t ==>
            table.writer.Some? && s.ops[table.writer.value].DelErase?)
  }

  predicate StoreOk(w: World, fn: FnId) { fn in w.store ==> OfFn(w, w.store[fn], fn) }

  ghost predicate OpOk(s: Sys, p: OpId) { p in s.ops ==> PcOk(s.w, p, s.ops[p]) }

  ghost predicate OneDeleter(s: Sys) {
    forall p, q :: p in s.ops && q in s.ops && IsDel(s.ops[p]) && IsDel(s.ops[q]) ==> p == q
  }

  ghost predicate Inv(s: Sys) {
    && OneDeleter(s)
    && (forall p {:trigger OpOk(s, p)} :: OpOk(s, p))
    && (forall t {:trigger TableOk(s, t)} :: TableOk(s, t))
    && (forall fn {:trigger StoreOk(s.w, fn)} :: StoreOk(s.w, fn))
  }

  // --- what a step of one operation leaves to the others ---

  ghost predicate TableMoves(w: World, v: World, p: OpId, del: bool, t: TableId) {
    t in w.tables ==>
      && t in v.tables && v.tables[t].fn == w.tables[t].fn
      && (w.tables[t].writer.Some? && w.tables[t].writer != Some(p) ==> v.tables[t] == w.tables[t])
      && v.tables[t].readers - {p} == w.tables[t].readers - {p}
      && (w.tables[t].dead ==> v.tables[t].dead)
      && (!w.tables[t].dead && v.tables[t].dead ==>
            del && w.tables[t].writer == Some(p) && PodsOf(v, w.tables[t].fn) == {})
  }

  ghost predicate StoreMoves(w: World, v: World, del: bool, fn: FnId) {
    fn in w.store && !del ==> fn in v.store && v.store[fn] == w.store[fn]
  }

  ghost predicate Rely(w: World, v: World, p: OpId, del: bool) {
    && (forall t {:trigger TableMoves(w, v, p, del, t)} :: TableMoves(w, v, p, del, t))
    && (forall fn {:trigger StoreMoves(w, v, del, fn)} :: StoreMoves(w, v, del, fn))
  }

  lemma Others(w: World, v: World, p: OpId, del: bool, q: OpId, pc: Pc)
    requires Rely(w, v, p, del) && PcOk(w, q, pc) && q != p && !(del && IsDel(pc))
    ensures PcOk(v, q, Watch(pc, v))
  {
    var t := match pc
      case AddLock(_, t) => t
      case AddCheck(_, t) => t
      case AddInsert(_, t) => t
      case AddUnlock(_, t, _) => t
      case DelLock(_, t) => t
      case DelRemove(_, t) => t
      case DelCheck(_, t) => t
      case DelErase(_, t) => t
      case DelUnlock(_, t) => t
      case LookLock(_, _, t) => t
      case LookRead(_, _, t) => t
      case LookUnlock(_, _, t, _) => t
      case _ => 0;
    assert TableMoves(w, v, p, del, t);
    if pc.DelErase? { assert StoreMoves(w, v, del, pc.pod.fn); }
    if pc.LookRead? || pc.LookUnlock? { assert q in w.tables[t].readers - {p}; }
  }

  predicate Deletes(s: Sys, p: OpId) { p in s.ops && IsDel(s.ops[p]) }

  ghost predicate Good(s: Sys, p: OpId, m: Moved) {
    && Rely(s.w, m.0, p, Deletes(s, p))
    && (m.1.Some? ==> PcOk(m.0, p, Watch(m.1.value, m.0)))
    && (forall t {:trigger TableOk(After(s, p, m), t)} :: TableOk(After(s, p, m), t))
    && (forall fn {:trigger StoreOk(m.0, fn)} :: StoreOk(m.0, fn))
  }

  lemma Moves(s: Sys, p: OpId, m: Moved)
    requires Inv(s) && Good(s, p, m)
    requires m.1.Some? && IsDel(m.1.value) ==> Deletes(s, p) || forall q :: q in s.ops ==> !IsDel(s.ops[q])
    ensures Inv(After(s, p, m))
  {
    var t := After(s, p, m);
    forall q ensures OpOk(t, q) {
      assert OpOk(s, q);
      if q in t.ops && q != p { Others(s.w, m.0, p, Deletes(s, p), q, s.ops[q]); }
    }
  }

  // The new program counter still holds what the old one held.
  ghost predicate KeepsHold(s: Sys, p: OpId, pc: Option<Pc>) {
    p in s.ops ==> forall t :: Holds(s.ops[p], t) ==> pc.Some? && Holds(pc.value, t) && !s.ops[p].DelErase?
  }

  // A step that only looks.
  lemma LooksGood(s: Sys, p: OpId, pc: Option<Pc>)
    requires Inv(s) && KeepsHold(s, p, pc) && (pc.Some? ==> PcOk(s.w, p, Watch(pc.value, s.w)))
    ensures Good(s, p, (s.w, pc))
  {
    var m := (s.w, pc);
    forall t ensures TableMoves(s.w, s.w, p, Deletes(s, p), t) {}
    forall fn ensures StoreMoves(s.w, s.w, Deletes(s, p), fn) {}
    forall t ensures TableOk(After(s, p, m), t) { assert TableOk(s, t); }
  }

  // A step that changes one table and leaves the store alone.
  lemma TableGood(s: Sys, p: OpId, t: TableId, table: Table, pc: Option<Pc>)
    requires Inv(s) && p in s.ops && t in s.w.tables
    requires var m := (SetTable(s.w, t, table), pc);
             && TableMoves(s.w, m.0, p, Deletes(s, p), t) && TableOk(After(s, p, m), t)
             && (pc.Some? ==> PcOk(m.0, p, Watch(pc.value, m.0)))
    requires forall x :: Holds(s.ops[p], x) ==> x == t
    ensures Good(s, p, (SetTable(s.w, t, table), pc))
  {
    var m := (SetTable(s.w, t, table), pc);
    forall x ensures TableMoves(s.w, m.0, p, Deletes(s, p), x) {}
    forall fn ensures StoreMoves(s.w, m.0, Deletes(s, p), fn) {}
    forall x ensures TableOk(After(s, p, m), x) { assert TableOk(s, x); }
    forall fn ensures StoreOk(m.0, fn) { assert StoreOk(s.w, fn); }
  }

  lemma AddGood(s: Sys, p: OpId)
    requires Inv(s) && Enabled(true, s, Go(p)) && !IsLook(s.ops[p]) && !IsDel(s.ops[p])
    ensures Good(s, p, StepAdd(s.w, p, s.ops[p]))
  {
    assert OpOk(s, p);
    var m := StepAdd(s.w, p, s.ops[p]);
    match s.ops[p] {
      case AddLoad(pod) =>
        assert StoreOk(s.w, pod.fn);
        LooksGood(s, p, m.1);
      case AddLock(pod, t) =>
        assert TableOk(s, t);
        TableGood(s, p, t, m.0.tables[t], m.1);
      case AddCheck(pod, t) => LooksGood(s, p, m.1);
      case AddInsert(pod, t) =>
        assert TableOk(s, t);
        TableGood(s, p, t, m.0.tables[t], m.1);
      case AddUnlock(pod, t, _) =>
        assert TableOk(s, t);
        TableGood(s, p, t, m.0.tables[t], m.1);
    }
  }

  lemma DelGood(s: Sys, p: OpId)
    requires Inv(s) && Enabled(true, s, Go(p)) && IsDel(s.ops[p]) && !s.ops[p].DelErase?
    ensures Good(s, p, StepDel(s.w, p, s.ops[p]))
  {
    assert OpOk(s, p);
    var m := StepDel(s.w, p, s.ops[p]);
    match s.ops[p] {
      case DelFind(pod) =>
        assert StoreOk(s.w, pod.fn);
        if pod.fn in s.w.store { FoundAlive(s, p, s.w.store[pod.fn]); }
        LooksGood(s, p, m.1);
      case DelLock(pod, t) =>
        assert TableOk(s, t);
        TableGood(s, p, t, m.0.tables[t], m.1);
      case DelRemove(pod, t) =>
        assert TableOk(s, t);
        TableGood(s, p, t, m.0.tables[t], m.1);
      case DelCheck(pod, t) =>
        assert TableOk(s, t);
        if s.w.tables[t].pods == {} { TableGood(s, p, t, m.0.tables[t], m.1); } else { LooksGood(s, p, m.1); }
      case DelUnlock(pod, t) =>
        assert TableOk(s, t);
        TableGood(s, p, t, m.0.tables[t], m.1);
    }
  }

  // A table that is in the store while nobody else deletes is not dead.
  lemma FoundAlive(s: Sys, p: OpId, t: TableId)
    requires Inv(s) && p in s.ops && s.ops[p].DelFind? && t in s.w.tables
    requires s.w.tables[t].fn in s.w.store && s.w.store[s.w.tables[t].fn] == t
    ensures !s.w.tables[t].dead
  {
    assert TableOk(s, t);
  }

  lemma EraseGood(s: Sys, p: OpId)
    requires Inv(s) && p in s.ops && s.ops[p].DelErase?
    ensures Good(s, p, StepDel(s.w, p, s.ops[p]))
  {
    assert OpOk(s, p);
    var m, pod := StepDel(s.w, p, s.ops[p]), s.ops[p].pod;
    assert PodsOf(s.w, pod.fn) == {} by { assert TableOk(s, s.ops[p].t); }
    forall x ensures TableMoves(s.w, m.0, p, true, x) {}
    forall fn ensures StoreMoves(s.w, m.0, true, fn) {}
    forall x ensures TableOk(After(s, p, m), x) { assert TableOk(s, x); }
    forall fn ensures StoreOk(m.0, fn) { assert StoreOk(s.w, fn); }
  }

  lemma StoreGood(s: Sys, p: OpId, t: TableId)
    requires Inv(s) && Enabled(true, s, Store(p, t))
    ensures Good(s, p, StepStore(s.w, s.ops[p].pod, t))
  {
    var m, fn0 := StepStore(s.w, s.ops[p].pod, t), s.ops[p].pod.fn;
    assert StoreOk(s.w, fn0);
    if fn0 in s.w.store {
      LooksGood(s, p, m.1);
    } else {
      forall x ensures TableMoves(s.w, m.0, p, false, x) {}
      forall fn ensures StoreMoves(s.w, m.0, false, fn) {}
      forall x ensures TableOk(After(s, p, m), x) { assert TableOk(s, x); }
      forall fn ensures StoreOk(m.0, fn) { assert StoreOk(s.w, fn); }
    }
  }

  lemma LookGood(s: Sys, p: OpId)
    requires Inv(s) && Enabled(true, s, Go(p)) && IsLook(s.ops[p])
    ensures Good(s, p, StepLook(s.w, p, s.ops[p]))
  {
    assert OpOk(s, p);
    var m := StepLook(s.w, p, s.ops[p]);
    match s.ops[p] {
      case LookFind(fn, _) =>
        assert StoreOk(s.w, fn);
        if fn in s.w.store { assert TableOk(s, s.w.store[fn]); }
        LooksGood(s, p, m.1);
      case LookLock(_, _, t) =>
        assert TableOk(s, t);
        TableGood(s, p, t, m.0.tables[t], m.1);
      case LookRead(_, _, t) =>
        assert TableOk(s, t);
        LooksGood(s, p, m.1);
      case LookUnlock(_, _, t, _) =>
        assert TableOk(s, t);
        TableGood(s, p, t, m.0.tables[t], m.1);
      case LookDone(_, _, _) => LooksGood(s, p, m.1);
    }
  }

  lemma {:induction false} StepKeepsInv(s: Sys, st: Step)
    requires Inv(s) && Enabled(true, s, st)
    ensures Inv(Apply(true, s, st))
  {
    match st {
      case BeginAdd(p, pod) => LooksGood(s, p, Some(AddLoad(pod)));
      case BeginDel(p, pod) => LooksGood(s, p, Some(DelFind(pod)));
      case BeginLook(p, fn) => LooksGood(s, p, Some(LookFind(fn, {PodsOf(s.w, fn)})));
      case Store(p, t) => StoreGood(s, p, t);
      case Go(p) =>
        if IsLook(s.ops[p]) { LookGood(s, p); }
        else if s.ops[p].DelErase? { EraseGood(s, p); }
        else if IsDel(s.ops[p]) { DelGood(s, p); }
        else { AddGood(s, p); }
    }
    Moves(s, st.p, Effect(true, s, st));
  }

  lemma {:induction false} RunKeepsInv(run: seq<Sys>, i: nat)
    requires IsRun(true, run) && i < |run|
    ensures Inv(run[i])
  {
    if i > 0 {
      RunKeepsInv(run, i - 1);
      assert Next(true, run[i - 1], run[i - 1 + 1]);
      var st :| Enabled(true, run[i - 1], st) && run[i] == Apply(true, run[i - 1], st);
      StepKeepsInv(run[i - 1], st);
    }
  }

  lemma ReachableInv(s: Sys)
    requires Reachable(true, s)
    ensures Inv(s)
  {
    var run :| IsRun(true, run) && s == run[|run| - 1];
    RunKeepsInv(run, |run| - 1);
  }
}
