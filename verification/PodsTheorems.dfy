// The pod store is an atomic map from functions to sets of pods.
module PodsTheorems {
  import opened Common
  import opened Pods
  import opened PodsSafety

  // A table marked dead is empty, and it is in the store only while its lock is still held; a
  // table that is not dead is the one in the store.
  lemma DeadTables(s: Sys, t: TableId)
    requires Reachable(true, s) && t in s.w.tables
    ensures var table := s.w.tables[t];
            && (table.dead ==> table.pods == {})
            && (table.dead && table.writer == None ==> !(table.fn in s.w.store && s.w.store[table.fn] == t))
            && (!table.dead ==>
                 table.fn in s.w.store && s.w.store[table.fn] == t
                 && PodsOf(s.w, table.fn) == table.pods)
  {
    ReachableInv(s);
    assert TableOk(s, t);
  }

  // The abstract map changes in one step of each add and one step of each delete, and in no
  // other: the pod added, or the pod deleted, of that function alone.
  ghost function Spec(s: Sys, st: Step, fn: FnId): set<Uid> {
    if st.Go? && st.p in s.ops && s.ops[st.p].AddInsert? && s.ops[st.p].pod.fn == fn
        then PodsOf(s.w, fn) + {s.ops[st.p].pod.uid}
    else if st.Go? && st.p in s.ops && s.ops[st.p].DelRemove? && s.ops[st.p].pod.fn == fn
        then PodsOf(s.w, fn) - {s.ops[st.p].pod.uid}
    else PodsOf(s.w, fn)
  }

  lemma Refines(s: Sys, st: Step, fn: FnId)
    requires Reachable(true, s) && Enabled(true, s, st)
    ensures PodsOf(Apply(true, s, st).w, fn) == Spec(s, st, fn)
  {
    ReachableInv(s);
    assert OpOk(s, st.p) && StoreOk(s.w, fn);
    if fn in s.w.store { assert TableOk(s, s.w.store[fn]); }
    if st.Go? {
      var pc := s.ops[st.p];
      if pc.AddInsert? || pc.DelRemove? || pc.DelErase? { assert TableOk(s, pc.t); }
    }
  }

  // An add returns only after its own insert, and its pod is there when it does; a delete
  // that finds no table has nothing to delete.
  lemma AddReturnsInserted(s: Sys, p: OpId)
    requires Reachable(true, s) && p in s.ops && Enabled(true, s, Go(p))
    ensures var pc, t := s.ops[p], Apply(true, s, Go(p));
            && (p !in t.ops && !IsDel(pc) && !IsLook(pc) ==>
                 pc.AddUnlock? && pc.pod.uid in PodsOf(s.w, pc.pod.fn)
                 && PodsOf(t.w, pc.pod.fn) == PodsOf(s.w, pc.pod.fn))
            && (p !in t.ops && pc.DelFind? ==> PodsOf(s.w, pc.pod.fn) == {})
  {
    ReachableInv(s);
    assert OpOk(s, p);
    if s.ops[p].AddUnlock? { assert TableOk(s, s.ops[p].t); }
  }

  // --- lookups over a run ---

  // p is one call of podsFindAll that began at run[i] and is still in flight at run[j].
  ghost predicate Looking(run: seq<Sys>, i: nat, j: nat, p: OpId, fn: FnId) {
    && i <= j < |run|
    && (forall k :: i <= k <= j ==> p in run[k].ops && IsLook(run[k].ops[p]) && run[k].ops[p].fn == fn)
    && run[i].ops[p] == LookFind(fn, {PodsOf(run[i].w, fn)})
  }

  ghost predicate WasAt(run: seq<Sys>, i: nat, j: nat, fn: FnId, pods: set<Uid>) {
    exists k :: i <= k <= j < |run| && PodsOf(run[k].w, fn) == pods
  }

  // One step of a run adds to a lookup's history what the pods are behind it.
  lemma SeenGrows(s: Sys, t: Sys, p: OpId)
    requires Next(true, s, t)
    requires p in s.ops && IsLook(s.ops[p]) && p in t.ops && IsLook(t.ops[p]) && t.ops[p].fn == s.ops[p].fn
    ensures t.ops[p].seen == s.ops[p].seen + {PodsOf(t.w, s.ops[p].fn)}
  {
  }

  lemma WasEarlier(run: seq<Sys>, i: nat, j: nat, fn: FnId, pods: set<Uid>)
    requires i < j < |run| && (WasAt(run, i, j - 1, fn, pods) || PodsOf(run[j].w, fn) == pods)
    ensures WasAt(run, i, j, fn, pods)
  {
  }

  lemma {:induction false} SeenIsHistory(run: seq<Sys>, i: nat, j: nat, p: OpId, fn: FnId)
    requires IsRun(true, run) && Looking(run, i, j, p, fn)
    ensures forall pods :: pods in run[j].ops[p].seen ==> WasAt(run, i, j, fn, pods)
  {
    if i == j {
      assert WasAt(run, i, j, fn, PodsOf(run[i].w, fn));
    } else {
      SeenIsHistory(run, i, j - 1, p, fn);
      StepOf(run, j);
      SeenGrows(run[j - 1], run[j], p);
      forall pods | pods in run[j].ops[p].seen ensures WasAt(run, i, j, fn, pods) {
        WasEarlier(run, i, j, fn, pods);
      }
    }
  }

  lemma StepOf(run: seq<Sys>, j: nat)
    requires IsRun(true, run) && 0 < j < |run|
    ensures Next(true, run[j - 1], run[j])
  {
    assert Next(true, run[j - 1], run[j - 1 + 1]);
  }

  // Lookups are linearizable: what one returns is what the pods of the function were at some
  // moment of the call, even if the table it reads was thrown away meanwhile.
  lemma LookupLinearizes(run: seq<Sys>, i: nat, j: nat, p: OpId, fn: FnId)
    requires IsRun(true, run) && Looking(run, i, j, p, fn) && run[j].ops[p].LookDone?
    ensures WasAt(run, i, j, fn, run[j].ops[p].found)
  {
    RunKeepsInv(run, j);
    assert OpOk(run[j], p);
    SeenIsHistory(run, i, j, p, fn);
  }

  // No operation is about to remove this pod.
  ghost predicate Spares(s: Sys, pod: Pod) {
    forall p :: p in s.ops && s.ops[p].DelRemove? ==> s.ops[p].pod != pod
  }

  lemma StaysOneStep(s: Sys, t: Sys, pod: Pod)
    requires Reachable(true, s) && Next(true, s, t) && Spares(s, pod) && pod.uid in PodsOf(s.w, pod.fn)
    ensures pod.uid in PodsOf(t.w, pod.fn)
  {
    var st :| Enabled(true, s, st) && t == Apply(true, s, st);
    Refines(s, st, pod.fn);
  }

  lemma {:induction false} StaysUnlessDeleted(run: seq<Sys>, m: nat, k: nat, pod: Pod)
    requires IsRun(true, run) && m <= k < |run| && pod.uid in PodsOf(run[m].w, pod.fn)
    requires forall n :: m <= n < k ==> Spares(run[n], pod)
    ensures pod.uid in PodsOf(run[k].w, pod.fn)
  {
    if k > m {
      StaysUnlessDeleted(run, m, k - 1, pod);
      Prefix(run, k - 1);
      StepOf(run, k);
      StaysOneStep(run[k - 1], run[k], pod);
    }
  }

  lemma Prefix(run: seq<Sys>, k: nat)
    requires IsRun(true, run) && k < |run|
    ensures Reachable(true, run[k])
  {
    var r := run[..k + 1];
    forall i | 0 <= i < |r| - 1 ensures Next(true, r[i], r[i + 1]) { assert Next(true, run[i], run[i + 1]); }
    assert IsRun(true, r) && r[|r| - 1] == run[k];
  }

  // A completed add that no delete undoes is found by every lookup that starts later.
  lemma CompletedAddIsFound(run: seq<Sys>, m: nat, i: nat, j: nat, a: OpId, p: OpId, pod: Pod)
    requires IsRun(true, run) && m <= i && Looking(run, i, j, p, pod.fn) && run[j].ops[p].LookDone?
    requires a in run[m].ops && run[m].ops[a].AddUnlock? && run[m].ops[a].pod == pod && !run[m].ops[a].again
    requires forall n :: m <= n < j ==> Spares(run[n], pod)
    ensures pod.uid in run[j].ops[p].found
  {
    RunKeepsInv(run, m);
    assert OpOk(run[m], a) && TableOk(run[m], run[m].ops[a].t);
    LookupLinearizes(run, i, j, p, pod.fn);
    var k :| i <= k <= j && PodsOf(run[k].w, pod.fn) == run[j].ops[p].found;
    StaysUnlessDeleted(run, m, k, pod);
  }
}
